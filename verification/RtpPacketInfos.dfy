/**
 `RtpPacketInfos`: handles that share immutable storage through reference counting, with an empty
 sequence stored as no storage at all. They are shown to behave like independent sequences.
 */
module RtpPacketInfos {
  import opened Common
  import opened RefPtrSpec

  /** `contents` is what the live Data objects hold; it goes when the object is deleted. */
  datatype World<T> = World(heap: State, contents: map<Object, seq<T>>)

  datatype Action<T> =
    | Default(x: Slot)
    | FromEntries(x: Slot, entries: seq<T>, o: Object)     // `o` is where new storage would be allocated
    | CopyFrom(x: Slot, y: Slot)
    | MoveFrom(x: Slot, y: Slot)
    | AssignCopyOf(x: Slot, y: Slot)
    | AssignMoveOf(x: Slot, y: Slot)
    | Destruct(x: Slot)

  function Nobody<T>(): World<T> {
    World(Init(), map[])
  }

  function Settled<T>(w: World<T>, heap: State): World<T> {
    World(heap, map o | o in w.contents && o in heap.counts :: w.contents[o])
  }

  /** Data::Create, and the handle that adopts its result. */
  function Created<T>(w: World<T>, x: Slot, entries: seq<T>, o: Object): World<T> {
    if entries == [] then World(Constructed(w.heap, x, None), w.contents)
    else World(Constructed(NewObject(w.heap, o), x, Some(o)), w.contents[o := entries])
  }

  function Look<T>(contents: map<Object, seq<T>>, p: Option<Object>): seq<T> {
    if p.Some? && p.value in contents then contents[p.value] else []
  }

  /** entries() */
  function Entries<T>(w: World<T>, x: Slot): seq<T> {
    Look(w.contents, Held(w.heap.slots, x))
  }

  predicate Allowed<T>(w: World<T>, a: Action<T>) {
    var slots := w.heap.slots;
    match a
    case Default(x) => x !in slots
    case FromEntries(x, _, o) => x !in slots && o !in w.heap.counts
    case CopyFrom(x, y) => x !in slots && y in slots
    case MoveFrom(x, y) => x !in slots && y in slots
    case AssignCopyOf(x, y) => x in slots && y in slots
    case AssignMoveOf(x, y) => x in slots && y in slots
    case Destruct(x) => x in slots
  }

  function Act<T>(w: World<T>, a: Action<T>): World<T> {
    var h := w.heap;
    match a
    case Default(x) => Created(w, x, [], 0)
    case FromEntries(x, entries, o) => Created(w, x, entries, o)
    case CopyFrom(x, y) => Settled(w, Constructed(h, x, Held(h.slots, y)))
    case MoveFrom(x, y) => Settled(w, Moved(h, x, y))
    case AssignCopyOf(x, y) => Settled(w, Assigned(h, x, Held(h.slots, y)))
    case AssignMoveOf(x, y) => Settled(w, AssignMoved(h, x, y))
    case Destruct(x) => Settled(w, Destroyed(h, x))
  }

  // ---------------------------------------------------------------- the meaning

  function ValuesOf<T>(slots: map<Slot, Option<Object>>, contents: map<Object, seq<T>>): map<Slot, seq<T>> {
    map x | x in slots :: Look(contents, slots[x])
  }

  function Values<T>(w: World<T>): map<Slot, seq<T>> {
    ValuesOf(w.heap.slots, w.contents)
  }

  function Value<T>(m: map<Slot, seq<T>>, x: Slot): seq<T> {
    if x in m then m[x] else []
  }

  /** Handles as variables of a value type, where a variable that is moved from becomes empty. */
  function ValueStep<T>(m: map<Slot, seq<T>>, a: Action<T>): map<Slot, seq<T>> {
    match a
    case Default(x) => m[x := []]
    case FromEntries(x, entries, _) => m[x := entries]
    case CopyFrom(x, y) => m[x := Value(m, y)]
    case MoveFrom(x, y) => m[y := []][x := Value(m, y)]
    case AssignCopyOf(x, y) => m[x := Value(m, y)]
    case AssignMoveOf(x, y) => if x == y then m else m[y := []][x := Value(m, y)]
    case Destruct(x) => m - {x}
  }

  predicate AllAllowed<T>(w: World<T>, acts: seq<Action<T>>)
    decreases |acts|
  {
    acts != [] ==> Allowed(w, acts[0]) && AllAllowed(Act(w, acts[0]), acts[1..])
  }

  function ActAll<T>(w: World<T>, acts: seq<Action<T>>): World<T>
    decreases |acts|
  {
    if acts == [] then w else ActAll(Act(w, acts[0]), acts[1..])
  }

  function ValueRun<T>(m: map<Slot, seq<T>>, acts: seq<Action<T>>): map<Slot, seq<T>>
    decreases |acts|
  {
    if acts == [] then m else ValueRun(ValueStep(m, acts[0]), acts[1..])
  }

  // ---------------------------------------------------------------- the proof

  ghost predicate NothingLoose(h: State) {
    forall o: Object :: Of(h.loose, o) == 0
  }

  /** Exactly the reference `p` is loose, if any. */
  ghost predicate OnlyLoose(h: State, p: Option<Object>) {
    forall o: Object :: Of(h.loose, o) == if p == Some(o) then 1 else 0
  }

  ghost predicate Sound<T>(w: World<T>) {
    && Valid(w.heap) && NothingLoose(w.heap) && w.heap.raw == {}
    && w.contents.Keys == w.heap.counts.Keys
    && (forall o :: o in w.contents ==> w.contents[o] != [])
  }

  /** Taking a reference and putting it into a slot sets loose what the slot held. */
  lemma ConstructedLoose(h: State, x: Slot, p: Option<Object>)
    requires NothingLoose(h)
    ensures OnlyLoose(Constructed(h, x, p), Held(h.slots, x))
  {
    forall o: Object ensures Of(Constructed(h, x, p).loose, o) == if Held(h.slots, x) == Some(o) then 1 else 0 {
      assert Of(h.loose, o) == 0;
      PutLoose(Grab(h, p), x, p, o);
    }
  }

  lemma MovedLoose(h: State, x: Slot, y: Slot)
    requires NothingLoose(h) && y in h.slots && x != y
    ensures OnlyLoose(Moved(h, x, y), Held(h.slots, x))
  {
    forall o: Object ensures Of(Moved(h, x, y).loose, o) == if Held(h.slots, x) == Some(o) then 1 else 0 {
      PutLoose(h, y, None, o);
      if h.slots[y].Some? {
        PutLoose(h, y, None, h.slots[y].value);
      }
      PutLoose(Put(h, y, None), x, Held(h.slots, y), o);
    }
  }

  lemma DroppedLoose(h: State, p: Option<Object>)
    requires OnlyLoose(h, p)
    ensures NothingLoose(Drop(h, p))
  {
    forall o: Object ensures Of(Drop(h, p).loose, o) == 0 {
      assert Of(h.loose, o) == if p == Some(o) then 1 else 0;
    }
  }

  lemma NoneLoose(h: State)
    requires OnlyLoose(h, None)
    ensures NothingLoose(h)
  {
    forall o: Object ensures Of(h.loose, o) == 0 {
      assert Of(h.loose, o) == if None == Some(o) then 1 else 0;
    }
  }

  lemma DestroyedLoose(h: State, x: Slot)
    requires NothingLoose(h)
    ensures NothingLoose(Destroyed(h, x))
  {
    forall o: Object ensures Of(Put(h, x, None).loose, o) == if Held(h.slots, x) == Some(o) then 1 else 0 {
      PutLoose(h, x, None, o);
    }
    DroppedLoose(Forget(Put(h, x, None), x), Held(h.slots, x));
  }

  // What the slots show is changed like the slots themselves.

  lemma ValuesPut<T>(slots: map<Slot, Option<Object>>, contents: map<Object, seq<T>>, x: Slot, p: Option<Object>)
    ensures ValuesOf(slots[x := p], contents) == ValuesOf(slots, contents)[x := Look(contents, p)]
  {
  }

  lemma ValuesForget<T>(slots: map<Slot, Option<Object>>, contents: map<Object, seq<T>>, x: Slot)
    ensures ValuesOf(slots - {x}, contents) == ValuesOf(slots, contents) - {x}
  {
  }

  lemma ValuesGrow<T>(slots: map<Slot, Option<Object>>, contents: map<Object, seq<T>>, o: Object, entries: seq<T>)
    requires forall x :: x in slots ==> slots[x] != Some(o)
    ensures ValuesOf(slots, contents[o := entries]) == ValuesOf(slots, contents)
  {
  }

  /** Operations on existing storage only delete; what survives keeps its contents, and whatever a
      slot refers to survives. */
  lemma SettledSound<T>(w: World<T>, heap: State)
    requires Sound(w) && Valid(heap) && NothingLoose(heap) && heap.raw == {}
    requires heap.counts.Keys <= w.heap.counts.Keys
    ensures Sound(Settled(w, heap)) && Values(Settled(w, heap)) == ValuesOf(heap.slots, w.contents)
  {
    assert Settled(w, heap).contents.Keys == heap.counts.Keys;
    SettledValues(w, heap);
  }

  lemma SettledValues<T>(w: World<T>, heap: State)
    requires NoDangling(heap)
    ensures Values(Settled(w, heap)) == ValuesOf(heap.slots, w.contents)
  {
    var contents := Settled(w, heap).contents;
    forall x | x in heap.slots ensures Look(contents, heap.slots[x]) == Look(w.contents, heap.slots[x]) {
      assert heap.slots[x].Some? ==> heap.slots[x].value in heap.counts;
    }
  }

  lemma CreatedHeap(h: State, x: Slot, o: Object)
    requires Valid(h) && NothingLoose(h) && h.raw == {} && x !in h.slots && o !in h.counts
    ensures var g := Constructed(NewObject(h, o), x, Some(o));
            && Valid(g) && NothingLoose(g) && g.raw == {}
            && g.slots == h.slots[x := Some(o)] && g.counts.Keys == h.counts.Keys + {o}
  {
    var n := NewObject(h, o);
    NewKeeps(h, o);
    ConstructKeeps(n, x, Some(o));
    assert NothingLoose(n);
    ConstructedLoose(n, x, Some(o));
    NoneLoose(Constructed(n, x, Some(o)));
  }

  lemma CreatedSound<T>(w: World<T>, x: Slot, entries: seq<T>, o: Object)
    requires Sound(w) && x !in w.heap.slots && o !in w.heap.counts && entries != []
    ensures Sound(Created(w, x, entries, o))
    ensures Values(Created(w, x, entries, o)) == Values(w)[x := entries]
  {
    CreatedHeap(w.heap, x, o);
    var contents := w.contents[o := entries];
    assert contents.Keys == w.contents.Keys + {o};
    assert forall p :: p in contents ==> contents[p] != [];
    CreatedValues(w.heap.slots, w.contents, x, entries, o);
  }

  lemma CreatedValues<T>(slots: map<Slot, Option<Object>>, contents: map<Object, seq<T>>, x: Slot, entries: seq<T>,
                         o: Object)
    requires forall y :: y in slots ==> slots[y] != Some(o)
    ensures ValuesOf(slots[x := Some(o)], contents[o := entries]) == ValuesOf(slots, contents)[x := entries]
  {
    ValuesPut(slots, contents[o := entries], x, Some(o));
    ValuesGrow(slots, contents, o, entries);
  }

  lemma DefaultSound<T>(w: World<T>, x: Slot)
    requires Sound(w) && x !in w.heap.slots
    ensures Sound(Created(w, x, [], 0)) && Values(Created(w, x, [], 0)) == Values(w)[x := []]
  {
    ConstructKeeps(w.heap, x, None);
    ConstructedLoose(w.heap, x, None);
    NoneLoose(Constructed(w.heap, x, None));
    ValuesPut(w.heap.slots, w.contents, x, None);
  }

  lemma CopySound<T>(w: World<T>, x: Slot, y: Slot)
    requires Sound(w) && x !in w.heap.slots && y in w.heap.slots
    ensures Sound(Act(w, CopyFrom(x, y))) && Values(Act(w, CopyFrom(x, y))) == ValueStep(Values(w), CopyFrom(x, y))
  {
    var h, p := w.heap, w.heap.slots[y];
    ConstructKeeps(h, x, p);
    ConstructedLoose(h, x, p);
    NoneLoose(Constructed(h, x, p));
    SettledSound(w, Constructed(h, x, p));
    ValuesPut(h.slots, w.contents, x, p);
  }

  lemma AssignCopySound<T>(w: World<T>, x: Slot, y: Slot)
    requires Sound(w) && x in w.heap.slots && y in w.heap.slots
    ensures Sound(Act(w, AssignCopyOf(x, y)))
    ensures Values(Act(w, AssignCopyOf(x, y))) == ValueStep(Values(w), AssignCopyOf(x, y))
  {
    var h, p := w.heap, w.heap.slots[y];
    var g := Assigned(h, x, p);
    AssignKeeps(h, x, p);
    AssignedShape(h, x, p);
    AssignmentsKeep(h, x, p);
    assert NothingLoose(g) by {
      ConstructedLoose(h, x, p);
      DroppedLoose(Constructed(h, x, p), h.slots[x]);
    }
    SettledSound(w, g);
    ValuesPut(h.slots, w.contents, x, p);
  }

  lemma ValuesMove<T>(slots: map<Slot, Option<Object>>, contents: map<Object, seq<T>>, x: Slot, y: Slot)
    requires y in slots
    ensures ValuesOf(slots[y := None][x := slots[y]], contents)
            == ValuesOf(slots, contents)[y := []][x := Value(ValuesOf(slots, contents), y)]
  {
    ValuesPut(slots, contents, y, None);
    ValuesPut(slots[y := None], contents, x, slots[y]);
  }

  lemma MoveSound<T>(w: World<T>, x: Slot, y: Slot)
    requires Sound(w) && x !in w.heap.slots && y in w.heap.slots
    ensures Sound(Act(w, MoveFrom(x, y))) && Values(Act(w, MoveFrom(x, y))) == ValueStep(Values(w), MoveFrom(x, y))
  {
    var h := w.heap;
    MoveKeeps(h, x, y);
    MovedLoose(h, x, y);
    NoneLoose(Moved(h, x, y));
    SettledSound(w, Moved(h, x, y));
    ValuesMove(h.slots, w.contents, x, y);
  }

  lemma AssignMoveSound<T>(w: World<T>, x: Slot, y: Slot)
    requires Sound(w) && x in w.heap.slots && y in w.heap.slots
    ensures Sound(Act(w, AssignMoveOf(x, y)))
    ensures Values(Act(w, AssignMoveOf(x, y))) == ValueStep(Values(w), AssignMoveOf(x, y))
  {
    AssignMovedHeap(w.heap, x, y);
    SettledSound(w, AssignMoved(w.heap, x, y));
    ValuesMove(w.heap.slots, w.contents, x, y);
  }

  lemma AssignMovedHeap(h: State, x: Slot, y: Slot)
    requires Valid(h) && NothingLoose(h) && h.raw == {} && x in h.slots && y in h.slots
    ensures var g := AssignMoved(h, x, y);
            && Valid(g) && NothingLoose(g) && g.raw == {} && g.counts.Keys <= h.counts.Keys
            && g.slots == if x == y then h.slots else h.slots[y := None][x := h.slots[y]]
  {
    AssignMoveKeeps(h, x, y);
    AssignMovedShape(h, x, y);
    MovesKeep(h, x, y);
    AssignMovedLoose(h, x, y);
  }

  lemma AssignMovedLoose(h: State, x: Slot, y: Slot)
    requires NothingLoose(h) && x in h.slots && y in h.slots
    ensures NothingLoose(AssignMoved(h, x, y))
  {
    if x != y {
      MovedLoose(h, x, y);
      DroppedLoose(Moved(h, x, y), h.slots[x]);
    }
  }

  lemma DestructSound<T>(w: World<T>, x: Slot)
    requires Sound(w) && x in w.heap.slots
    ensures Sound(Act(w, Destruct(x))) && Values(Act(w, Destruct(x))) == ValueStep(Values(w), Destruct(x))
  {
    var h := w.heap;
    DestroyKeeps(h, x);
    DestroyedLoose(h, x);
    SettledSound(w, Destroyed(h, x));
    assert h.slots[x := None] - {x} == h.slots - {x};
    ValuesForget(h.slots, w.contents, x);
  }

  /** One operation on handles is one operation on values. */
  lemma ActRefinesValues<T>(w: World<T>, a: Action<T>)
    requires Sound(w) && Allowed(w, a)
    ensures Sound(Act(w, a)) && Values(Act(w, a)) == ValueStep(Values(w), a)
  {
    match a
    case Default(x) => DefaultSound(w, x);
    case FromEntries(x, entries, o) =>
      if entries == [] {
        DefaultSound(w, x);
      } else {
        CreatedSound(w, x, entries, o);
      }
    case CopyFrom(x, y) => CopySound(w, x, y);
    case MoveFrom(x, y) => MoveSound(w, x, y);
    case AssignCopyOf(x, y) => AssignCopySound(w, x, y);
    case AssignMoveOf(x, y) => AssignMoveSound(w, x, y);
    case Destruct(x) => DestructSound(w, x);
  }

  lemma {:induction false} RunRefinesValues<T>(w: World<T>, acts: seq<Action<T>>)
    requires Sound(w) && AllAllowed(w, acts)
    ensures Sound(ActAll(w, acts)) && Values(ActAll(w, acts)) == ValueRun(Values(w), acts)
    decreases |acts|
  {
    if acts != [] {
      ActRefinesValues(w, acts[0]);
      RunRefinesValues(Act(w, acts[0]), acts[1..]);
    }
  }

  /** Any run of constructions, copies, moves, assignments and destructions of handles behaves like
      independent sequences; storage is alive exactly while a handle refers to it, and a handle
      without storage is an empty sequence and the other way round. */
  lemma ValueSemantics<T>(acts: seq<Action<T>>)
    requires AllAllowed(Nobody<T>(), acts)
    ensures var w := ActAll(Nobody<T>(), acts);
            && Values(w) == ValueRun(map[], acts)
            && (forall x :: x in w.heap.slots ==> Entries(w, x) == Value(ValueRun(map[], acts), x))
            && w.heap.slots.Keys == ValueRun<T>(map[], acts).Keys
            && (forall o :: o in w.heap.counts <==> exists x :: x in w.heap.slots && w.heap.slots[x] == Some(o))
            && (forall x :: x in w.heap.slots ==> (Entries(w, x) == [] <==> w.heap.slots[x] == None))
  {
    Conservation([]);
    var z := Nobody<T>();
    assert Values(z) == map[];
    RunRefinesValues(z, acts);
    var w := ActAll(z, acts);
    forall o | o in w.heap.counts ensures exists x :: x in w.heap.slots && w.heap.slots[x] == Some(o) {
      assert Balance(w.heap, o);
      HoldersZero(w.heap.slots, o);
    }
  }
}
