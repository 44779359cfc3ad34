/**
 Reference counting as conservation. A reference to an object is held by a `scoped_refptr` slot or is
 loose: handed out by release() or taken by a bare AddRef(). Slots and objects are named by numbers;
 an object number, like an address, may be used again after the object was deleted.

 The operations are given here by what they do to the references: take one, put one into a slot,
 give one back. The classes in ScopedRefPtr.dfy perform AddRef and Release in the order of the source
 and are proved to have these effects.
 */
module RefPtrSpec {
  import opened Common

  type Slot = nat
  type Object = nat

  /** How often something occurs; what is absent occurs zero times. */
  type Tally = map<Object, nat>

  function Of(t: Tally, o: Object): nat {
    if o in t then t[o] else 0
  }

  function More(t: Tally, p: Option<Object>): Tally {
    if p.None? then t else t[p.value := Of(t, p.value) + 1]
  }

  function Less(t: Tally, p: Option<Object>): Tally {
    if p.None? || Of(t, p.value) == 0 then t else t[p.value := Of(t, p.value) - 1]
  }

  datatype State = State(
    slots: map<Slot, Option<Object>>,
    counts: map<Object, nat>,        // the live objects and their reference counts
    loose: Tally,
    raw: set<Object>,                // created and never referenced so far
    created: Tally,
    deleted: Tally)

  datatype Event =
    | New(o: Object)
    | Construct(x: Slot, p: Option<Object>)        // from a raw pointer, which may be null
    | CopyConstruct(x: Slot, y: Slot)
    | MoveConstruct(x: Slot, y: Slot)
    | Destroy(x: Slot)
    | AssignRaw(x: Slot, p: Option<Object>)
    | AssignCopy(x: Slot, y: Slot)
    | AssignMove(x: Slot, y: Slot)
    | Swap(x: Slot, y: Slot)
    | ReleaseSlot(x: Slot)                    // T* release()
    | AddRef(o: Object)                         // by a client, which then owns a loose reference
    | Release(o: Object)                        // of a loose reference

  // ---------------------------------------------------------------- references

  function Holding(slots: map<Slot, Option<Object>>, o: Object): set<Slot> {
    set x | x in slots && slots[x] == Some(o)
  }

  /** The number of slots that hold `o`. */
  function Holders(slots: map<Slot, Option<Object>>, o: Object): nat {
    |Holding(slots, o)|
  }

  function Held(slots: map<Slot, Option<Object>>, x: Slot): Option<Object> {
    if x in slots then slots[x] else None
  }

  /** One more reference, loose. */
  function Grab(s: State, p: Option<Object>): State {
    if p.None? then s
    else s.(counts := More(s.counts, p), loose := More(s.loose, p), raw := s.raw - {p.value})
  }

  /** The slot takes over a loose reference to `p` and sets loose the one it held. */
  function Put(s: State, x: Slot, p: Option<Object>): State {
    s.(slots := s.slots[x := p], loose := Less(More(s.loose, Held(s.slots, x)), p))
  }

  /** A loose reference is given back; the object goes with the last one. */
  function Drop(s: State, p: Option<Object>): State {
    if p.None? then s
    else if Of(s.counts, p.value) == 1 then
      s.(counts := s.counts - {p.value}, loose := Less(s.loose, p), deleted := More(s.deleted, p))
    else s.(counts := Less(s.counts, p), loose := Less(s.loose, p))
  }

  function Forget(s: State, x: Slot): State {
    s.(slots := s.slots - {x})
  }

  // ---------------------------------------------------------------- operations

  function NewObject(s: State, o: Object): State {
    s.(counts := s.counts[o := 0], raw := s.raw + {o}, created := More(s.created, Some(o)))
  }

  function Constructed(s: State, x: Slot, p: Option<Object>): State {
    Put(Grab(s, p), x, p)
  }

  function Moved(s: State, x: Slot, y: Slot): State {
    Put(Put(s, y, None), x, Held(s.slots, y))
  }

  function Destroyed(s: State, x: Slot): State {
    Drop(Forget(Put(s, x, None), x), Held(s.slots, x))
  }

  function Assigned(s: State, x: Slot, p: Option<Object>): State {
    Drop(Put(Grab(s, p), x, p), Held(s.slots, x))
  }

  function AssignMoved(s: State, x: Slot, y: Slot): State {
    if x == y then s else Drop(Moved(s, x, y), Held(s.slots, x))
  }

  function Swapped(s: State, x: Slot, y: Slot): State {
    s.(slots := s.slots[x := Held(s.slots, y)][y := Held(s.slots, x)])
  }

  predicate Enabled(s: State, e: Event) {
    match e
    case New(o) => o !in s.counts
    case Construct(x, p) => x !in s.slots && (p.Some? ==> p.value in s.counts)
    case CopyConstruct(x, y) => x !in s.slots && y in s.slots
    case MoveConstruct(x, y) => x !in s.slots && y in s.slots
    case Destroy(x) => x in s.slots
    case AssignRaw(x, p) => x in s.slots && (p.Some? ==> p.value in s.counts)
    case AssignCopy(x, y) => x in s.slots && y in s.slots
    case AssignMove(x, y) => x in s.slots && y in s.slots
    case Swap(x, y) => x in s.slots && y in s.slots
    case ReleaseSlot(x) => x in s.slots
    case AddRef(o) => o in s.counts
    case Release(o) => Of(s.loose, o) > 0
  }

  function Step(s: State, e: Event): State
    requires Enabled(s, e)
  {
    match e
    case New(o) => NewObject(s, o)
    case Construct(x, p) => Constructed(s, x, p)
    case CopyConstruct(x, y) => Constructed(s, x, s.slots[y])
    case MoveConstruct(x, y) => Moved(s, x, y)
    case Destroy(x) => Destroyed(s, x)
    case AssignRaw(x, p) => Assigned(s, x, p)
    case AssignCopy(x, y) => Assigned(s, x, s.slots[y])
    case AssignMove(x, y) => AssignMoved(s, x, y)
    case Swap(x, y) => Swapped(s, x, y)
    case ReleaseSlot(x) => Put(s, x, None)
    case AddRef(o) => Grab(s, Some(o))
    case Release(o) => Drop(s, Some(o))
  }

  predicate RunOk(s: State, es: seq<Event>)
    decreases |es|
  {
    es != [] ==> Enabled(s, es[0]) && RunOk(Step(s, es[0]), es[1..])
  }

  function Run(s: State, es: seq<Event>): State
    requires RunOk(s, es)
    decreases |es|
  {
    if es == [] then s else Run(Step(s, es[0]), es[1..])
  }

  function Init(): State {
    State(map[], map[], map[], {}, map[], map[])
  }

  // ---------------------------------------------------------------- conservation

  ghost predicate Balance(s: State, o: Object) {
    o in s.counts && s.counts[o] == Holders(s.slots, o) + Of(s.loose, o)
  }

  /** The count of a live object is the number of references to it. */
  ghost predicate Balanced(s: State) {
    forall o :: o in s.counts ==> Balance(s, o)
  }

  /** Nothing refers to a deleted object. */
  ghost predicate NoDangling(s: State) {
    && (forall x :: x in s.slots && s.slots[x].Some? ==> s.slots[x].value in s.counts)
    && (forall o :: Of(s.loose, o) > 0 ==> o in s.counts)
  }

  /** A live object without references is one that was never referenced. */
  ghost predicate NoLeak(s: State) {
    && (forall o :: o in s.counts ==> (s.counts[o] == 0 <==> o in s.raw))
    && (forall o :: o in s.raw ==> o in s.counts)
  }

  /** Every object created was deleted once or is alive. */
  ghost predicate Paired(s: State) {
    forall o :: Of(s.created, o) == Of(s.deleted, o) + if o in s.counts then 1 else 0
  }

  ghost predicate Valid(s: State) {
    Balanced(s) && NoDangling(s) && NoLeak(s) && Paired(s)
  }

  lemma HoldersPut(slots: map<Slot, Option<Object>>, x: Slot, p: Option<Object>, o: Object)
    ensures Holders(slots[x := p], o)
            == Holders(slots, o) - (if x in slots && slots[x] == Some(o) then 1 else 0)
                                 + (if p == Some(o) then 1 else 0)
  {
    var a, b := Holding(slots, o), Holding(slots[x := p], o);
    if p == Some(o) {
      assert b == a + {x};
    } else {
      assert b == a - {x};
    }
  }

  lemma HoldersForget(slots: map<Slot, Option<Object>>, x: Slot, o: Object)
    requires x in slots && slots[x] == None
    ensures Holders(slots - {x}, o) == Holders(slots, o)
  {
    assert Holding(slots - {x}, o) == Holding(slots, o);
  }

  /** Nobody holds `o` exactly when no slot does. */
  lemma HoldersZero(slots: map<Slot, Option<Object>>, o: Object)
    ensures Holders(slots, o) == 0 <==> forall x :: x in slots ==> slots[x] != Some(o)
  {
    if x :| x in slots && slots[x] == Some(o) {
      assert x in Holding(slots, o);
    } else {
      assert Holding(slots, o) == {};
    }
  }

  lemma NewKeeps(s: State, o: Object)
    requires Valid(s) && o !in s.counts
    ensures Valid(NewObject(s, o))
  {
    var t := NewObject(s, o);
    HoldersZero(s.slots, o);
    assert Balance(t, o);
    forall q | q in s.counts ensures Balance(t, q) {
      assert Balance(s, q);
    }
  }

  lemma GrabKeeps(s: State, p: Option<Object>)
    requires Valid(s) && (p.Some? ==> p.value in s.counts)
    ensures Valid(Grab(s, p))
  {
    if p.Some? {
      var t := Grab(s, p);
      forall o | o in t.counts ensures Balance(t, o) {
        assert Balance(s, o);
      }
    }
  }

  lemma PutLoose(s: State, x: Slot, p: Option<Object>, o: Object)
    requires p.Some? ==> Of(s.loose, p.value) > 0
    ensures Of(Put(s, x, p).loose, o) == Of(s.loose, o) + (if x in s.slots && s.slots[x] == Some(o) then 1 else 0)
                                                - (if p == Some(o) then 1 else 0)
  {
  }

  lemma PutKeeps(s: State, x: Slot, p: Option<Object>)
    requires Valid(s) && (p.Some? ==> Of(s.loose, p.value) > 0)
    ensures Valid(Put(s, x, p))
  {
    var t := Put(s, x, p);
    forall o | o in t.counts ensures Balance(t, o) {
      assert Balance(s, o);
      HoldersPut(s.slots, x, p, o);
      PutLoose(s, x, p, o);
    }
    assert NoDangling(t);
    assert Paired(t);
  }

  lemma DropLast(s: State, o: Object)
    requires Valid(s) && Of(s.loose, o) > 0 && s.counts[o] == 1
    ensures Valid(Drop(s, Some(o)))
  {
    var t := Drop(s, Some(o));
    assert Balance(s, o);
    HoldersZero(s.slots, o);
    forall q | q in t.counts ensures Balance(t, q) {
      assert Balance(s, q);
    }
    assert NoDangling(t);
  }

  lemma DropKeeps(s: State, p: Option<Object>)
    requires Valid(s) && (p.Some? ==> Of(s.loose, p.value) > 0)
    ensures Valid(Drop(s, p))
  {
    if p.Some? {
      if s.counts[p.value] == 1 {
        DropLast(s, p.value);
      } else {
        var t := Drop(s, p);
        forall o | o in t.counts ensures Balance(t, o) {
          assert Balance(s, o);
        }
      }
    }
  }

  lemma ForgetKeeps(s: State, x: Slot)
    requires Valid(s) && x in s.slots && s.slots[x] == None
    ensures Valid(Forget(s, x))
  {
    var t := Forget(s, x);
    forall o | o in t.counts ensures Balance(t, o) {
      assert Balance(s, o);
      HoldersForget(s.slots, x, o);
    }
  }

  lemma SwapKeeps(s: State, x: Slot, y: Slot)
    requires Valid(s) && x in s.slots && y in s.slots
    ensures Valid(Swapped(s, x, y))
  {
    var t := Swapped(s, x, y);
    forall o | o in t.counts ensures Balance(t, o) {
      assert Balance(s, o);
      HoldersPut(s.slots, x, s.slots[y], o);
      HoldersPut(s.slots[x := s.slots[y]], y, s.slots[x], o);
    }
  }

  lemma MoveKeeps(s: State, x: Slot, y: Slot)
    requires Valid(s) && y in s.slots
    ensures Valid(Moved(s, x, y))
  {
    PutKeeps(s, y, None);
    PutKeeps(Put(s, y, None), x, s.slots[y]);
  }

  lemma DestroyKeeps(s: State, x: Slot)
    requires Valid(s) && x in s.slots
    ensures Valid(Destroyed(s, x))
  {
    PutKeeps(s, x, None);
    ForgetKeeps(Put(s, x, None), x);
    DropKeeps(Forget(Put(s, x, None), x), s.slots[x]);
  }

  lemma ConstructKeeps(s: State, x: Slot, p: Option<Object>)
    requires Valid(s) && (p.Some? ==> p.value in s.counts)
    ensures Valid(Constructed(s, x, p))
  {
    GrabKeeps(s, p);
    PutKeeps(Grab(s, p), x, p);
  }

  /** Assignment: the new reference is taken before the old one is given back, so that the
      assignment of a slot to itself does not delete the object in between. */
  lemma AssignKeeps(s: State, x: Slot, p: Option<Object>)
    requires Valid(s) && x in s.slots && (p.Some? ==> p.value in s.counts)
    ensures Valid(Assigned(s, x, p))
  {
    ConstructKeeps(s, x, p);
    DropKeeps(Put(Grab(s, p), x, p), s.slots[x]);
  }

  lemma AssignMoveKeeps(s: State, x: Slot, y: Slot)
    requires Valid(s) && x in s.slots && y in s.slots
    ensures Valid(AssignMoved(s, x, y))
  {
    if x != y {
      MoveKeeps(s, x, y);
      DropKeeps(Moved(s, x, y), s.slots[x]);
    }
  }

  lemma StepKeepsValid(s: State, e: Event)
    requires Valid(s) && Enabled(s, e)
    ensures Valid(Step(s, e))
  {
    match e
    case New(o) => NewKeeps(s, o);
    case Construct(x, p) => ConstructKeeps(s, x, p);
    case CopyConstruct(x, y) => ConstructKeeps(s, x, s.slots[y]);
    case MoveConstruct(x, y) => MoveKeeps(s, x, y);
    case Destroy(x) => DestroyKeeps(s, x);
    case AssignRaw(x, p) => AssignKeeps(s, x, p);
    case AssignCopy(x, y) => AssignKeeps(s, x, s.slots[y]);
    case AssignMove(x, y) => AssignMoveKeeps(s, x, y);
    case Swap(x, y) => SwapKeeps(s, x, y);
    case ReleaseSlot(x) => PutKeeps(s, x, None);
    case AddRef(o) => GrabKeeps(s, Some(o));
    case Release(o) => DropKeeps(s, Some(o));
  }

  lemma {:induction false} RunIsValid(s: State, es: seq<Event>)
    requires Valid(s) && RunOk(s, es)
    ensures Valid(Run(s, es))
    decreases |es|
  {
    if es != [] {
      StepKeepsValid(s, es[0]);
      RunIsValid(Step(s, es[0]), es[1..]);
    }
  }

  /** Over any run: the count of each live object is the number of slots that hold it plus the loose
      references, no slot holds a deleted object, and each creation is matched by one deletion
      except for the objects that are alive. */
  lemma Conservation(es: seq<Event>)
    requires RunOk(Init(), es)
    ensures Valid(Run(Init(), es))
  {
    RunIsValid(Init(), es);
  }

  // ---------------------------------------------------------------- what each step does

  /** Slots as pointer variables: a variable that is moved from, or released, becomes null. */
  function SlotStep(slots: map<Slot, Option<Object>>, e: Event): map<Slot, Option<Object>> {
    match e
    case New(_) => slots
    case Construct(x, p) => slots[x := p]
    case CopyConstruct(x, y) => slots[x := Held(slots, y)]
    case MoveConstruct(x, y) => slots[y := None][x := Held(slots, y)]
    case Destroy(x) => slots - {x}
    case AssignRaw(x, p) => slots[x := p]
    case AssignCopy(x, y) => slots[x := Held(slots, y)]
    case AssignMove(x, y) => if x == y then slots else slots[y := None][x := Held(slots, y)]
    case Swap(x, y) => slots[x := Held(slots, y)][y := Held(slots, x)]
    case ReleaseSlot(x) => slots[x := None]
    case AddRef(_) => slots
    case Release(_) => slots
  }

  lemma StepSlots(s: State, e: Event)
    requires Enabled(s, e)
    ensures Step(s, e).slots == SlotStep(s.slots, e)
  {
    if e.Destroy? {
      DestroyedShape(s, e.x);
    } else if e.AssignMove? {
      AssignMovedShape(s, e.x, e.y);
    }
  }

  /** Over any run the slots hold what pointer variables would. */
  function SlotRun(slots: map<Slot, Option<Object>>, es: seq<Event>): map<Slot, Option<Object>>
    decreases |es|
  {
    if es == [] then slots else SlotRun(SlotStep(slots, es[0]), es[1..])
  }

  lemma {:induction false} RunSlots(s: State, es: seq<Event>)
    requires RunOk(s, es)
    ensures Run(s, es).slots == SlotRun(s.slots, es)
    decreases |es|
  {
    if es != [] {
      StepSlots(s, es[0]);
      RunSlots(Step(s, es[0]), es[1..]);
    }
  }

  /** How many references to `o` a step hands to the client, or takes back. */
  function LooseBy(s: State, e: Event, o: Object): int {
    match e
    case ReleaseSlot(x) => if Held(s.slots, x) == Some(o) then 1 else 0
    case AddRef(p) => if p == o then 1 else 0
    case Release(p) => if p == o then -1 else 0
    case _ => 0
  }

  lemma AssignedLoose(s: State, x: Slot, p: Option<Object>, o: Object)
    ensures Of(Assigned(s, x, p).loose, o) == Of(s.loose, o)
    ensures x !in s.slots ==> Of(Constructed(s, x, p).loose, o) == Of(s.loose, o)
  {
    PutLoose(Grab(s, p), x, p, o);
    DropLoose(Put(Grab(s, p), x, p), Held(s.slots, x), o);
  }

  lemma MoveLoose(s: State, x: Slot, y: Slot, o: Object)
    requires y in s.slots && x != y
    ensures Of(Moved(s, x, y).loose, o) == Of(s.loose, o) + if Held(s.slots, x) == Some(o) then 1 else 0
  {
    PutLoose(s, y, None, o);
    if s.slots[y].Some? {
      PutLoose(s, y, None, s.slots[y].value);
    }
    PutLoose(Put(s, y, None), x, s.slots[y], o);
  }

  lemma DropLoose(s: State, p: Option<Object>, o: Object)
    ensures Of(Drop(s, p).loose, o) == Of(s.loose, o) - if p == Some(o) && Of(s.loose, o) > 0 then 1 else 0
  {
  }

  lemma AssignMoveLoose(s: State, x: Slot, y: Slot, o: Object)
    requires x in s.slots && y in s.slots
    ensures Of(AssignMoved(s, x, y).loose, o) == Of(s.loose, o)
  {
    if x != y {
      MoveLoose(s, x, y, o);
      DropLoose(Moved(s, x, y), s.slots[x], o);
    }
  }

  /** Only release(), AddRef() and Release() change what clients hold besides the slots. */
  lemma StepLoose(s: State, e: Event, o: Object)
    requires Enabled(s, e)
    ensures Of(Step(s, e).loose, o) == Of(s.loose, o) + LooseBy(s, e, o)
  {
    match e
    case Construct(x, p) => AssignedLoose(s, x, p, o);
    case CopyConstruct(x, y) => AssignedLoose(s, x, s.slots[y], o);
    case MoveConstruct(x, y) => MoveLoose(s, x, y, o);
    case Destroy(x) =>
      PutLoose(s, x, None, o);
      DropLoose(Forget(Put(s, x, None), x), s.slots[x], o);
    case AssignRaw(x, p) => AssignedLoose(s, x, p, o);
    case AssignCopy(x, y) => AssignedLoose(s, x, s.slots[y], o);
    case AssignMove(x, y) => AssignMoveLoose(s, x, y, o);
    case ReleaseSlot(x) => PutLoose(s, x, None, o);
    case _ =>
  }

  lemma NotCreated(s: State, e: Event, o: Object)
    requires Valid(s) && Enabled(s, e) && o !in s.counts && e != New(o)
    ensures o !in Step(s, e).counts
  {
    match e
    case AssignRaw(x, p) => AssignedShape(s, x, p);
    case AssignCopy(x, y) => AssignedShape(s, x, s.slots[y]);
    case AssignMove(x, y) => AssignMovedShape(s, x, y);
    case Destroy(x) => DestroyedShape(s, x);
    case _ =>
  }

  /** An object that nobody refers to is not deleted by the loss of another's reference. */
  lemma RawStays(s: State, e: Event, o: Object)
    requires Valid(s) && Enabled(s, e) && o in s.raw
    ensures o in Step(s, e).counts
  {
    assert Balance(s, o);
    HoldersZero(s.slots, o);
    match e
    case Destroy(x) => DropSpares(Forget(Put(s, x, None), x), s.slots[x], o);
    case AssignRaw(x, p) => AssignedSpares(s, x, p, o);
    case AssignCopy(x, y) => AssignedSpares(s, x, s.slots[y], o);
    case AssignMove(x, y) => DropSpares(Moved(s, x, y), s.slots[x], o);
    case Release(p) => DropSpares(s, Some(p), o);
    case _ =>
  }

  lemma AssignedSpares(s: State, x: Slot, p: Option<Object>, o: Object)
    requires Held(s.slots, x) != Some(o) && o in s.counts
    ensures o in Assigned(s, x, p).counts
  {
    DropSpares(Put(Grab(s, p), x, p), Held(s.slots, x), o);
  }

  lemma DropSpares(s: State, p: Option<Object>, o: Object)
    requires p != Some(o) && o in s.counts
    ensures o in Drop(s, p).counts
  {
  }

  /** Through the temporary, too, move assignment leaves the loose references as they were. */
  lemma TemporaryLoose(s: State, t: State, x: Slot, y: Slot)
    requires Valid(s) && Valid(t) && x in s.slots && y in s.slots && t == AssignMoved(s, x, y).(loose := t.loose)
    ensures forall o: Object :: Of(t.loose, o) == Of(s.loose, o)
  {
    AssignMoveKeeps(s, x, y);
    LooseDetermined(t, AssignMoved(s, x, y));
    forall o: Object ensures Of(t.loose, o) == Of(s.loose, o) {
      AssignMoveLoose(s, x, y, o);
    }
  }

  /** Which objects are alive after a step: the new one, those referenced, and those that were never
      referenced at all. */
  lemma StepAlive(s: State, e: Event, o: Object)
    requires Valid(s) && Enabled(s, e)
    ensures var t := Step(s, e);
            o in t.counts
            <==> e == New(o) || (o in s.counts && (Holders(t.slots, o) + Of(t.loose, o) > 0 || o in s.raw))
  {
    var t := Step(s, e);
    StepKeepsValid(s, e);
    HoldersZero(t.slots, o);
    if o in s.counts && o !in s.raw {
      DeletedAtZero(s, e, o);
    } else if o in s.raw {
      RawStays(s, e, o);
    } else if e != New(o) {
      NotCreated(s, e, o);
    }
  }

  /** An object is deleted by a step exactly when that step takes its last reference. */
  lemma DeletedAtZero(s: State, e: Event, o: Object)
    requires Valid(s) && Enabled(s, e) && o in s.counts && o !in s.raw
    ensures var t := Step(s, e);
            && (o !in t.counts <==> Holders(t.slots, o) + Of(t.loose, o) == 0)
            && Of(t.deleted, o) == Of(s.deleted, o) + if o in t.counts then 0 else 1
  {
    var t := Step(s, e);
    StepKeepsValid(s, e);
    StepCreates(s, e, o);
    if o in t.counts {
      assert Balance(t, o);
    } else {
      HoldersZero(t.slots, o);
    }
  }

  /** The slots and the counts determine the loose references. */
  lemma LooseDetermined(s: State, t: State)
    requires Valid(s) && Valid(t) && s.slots == t.slots && s.counts == t.counts
    ensures forall o: Object :: Of(s.loose, o) == Of(t.loose, o)
  {
    forall o: Object ensures Of(s.loose, o) == Of(t.loose, o) {
      if o in s.counts {
        assert Balance(s, o) && Balance(t, o);
      }
    }
  }

  /** Only `new` creates, and a reference once taken is never forgotten. */
  predicate Keeps(s: State, t: State) {
    t.created == s.created && t.raw <= s.raw
  }

  lemma PrimitivesKeep(s: State, x: Slot, p: Option<Object>)
    ensures Keeps(s, Grab(s, p)) && Keeps(s, Put(s, x, p)) && Keeps(s, Drop(s, p)) && Keeps(s, Forget(s, x))
  {
  }

  lemma AssignmentsKeep(s: State, x: Slot, p: Option<Object>)
    ensures Keeps(s, Constructed(s, x, p)) && Keeps(s, Assigned(s, x, p))
  {
    PrimitivesKeep(s, x, p);
    PrimitivesKeep(Grab(s, p), x, p);
    PrimitivesKeep(Constructed(s, x, p), x, Held(s.slots, x));
  }

  lemma MovesKeep(s: State, x: Slot, y: Slot)
    ensures Keeps(s, Moved(s, x, y)) && Keeps(s, AssignMoved(s, x, y))
  {
    PrimitivesKeep(s, y, None);
    PrimitivesKeep(Put(s, y, None), x, Held(s.slots, y));
    PrimitivesKeep(Moved(s, x, y), x, Held(s.slots, x));
  }

  lemma DestructionKeeps(s: State, x: Slot)
    ensures Keeps(s, Destroyed(s, x))
  {
    PrimitivesKeep(s, x, None);
    PrimitivesKeep(Put(s, x, None), x, None);
    PrimitivesKeep(Forget(Put(s, x, None), x), x, Held(s.slots, x));
  }

  /** Assignment changes one slot and brings no object into being. */
  lemma AssignedShape(s: State, x: Slot, p: Option<Object>)
    requires p.Some? ==> p.value in s.counts
    ensures Assigned(s, x, p).slots == s.slots[x := p] && Assigned(s, x, p).counts.Keys <= s.counts.Keys
  {
  }

  /** Destruction gives the reference back and forgets the slot. */
  lemma DestroyedShape(s: State, x: Slot)
    requires x in s.slots
    ensures Destroyed(s, x) == Drop(s, s.slots[x]).(slots := s.slots - {x}, loose := Destroyed(s, x).loose)
  {
    assert s.slots[x := None] - {x} == s.slots - {x};
  }

  /** Move assignment empties the source, fills the target and brings no object into being. */
  lemma AssignMovedShape(s: State, x: Slot, y: Slot)
    requires x in s.slots && y in s.slots
    ensures AssignMoved(s, x, y).slots == if x == y then s.slots else s.slots[y := None][x := s.slots[y]]
    ensures AssignMoved(s, x, y).counts.Keys <= s.counts.Keys + (if s.slots[x].Some? then {s.slots[x].value} else {})
  {
  }

  lemma StepCreates(s: State, e: Event, o: Object)
    requires Enabled(s, e) && o in s.counts && o !in s.raw
    ensures Of(Step(s, e).created, o) == Of(s.created, o) && o !in Step(s, e).raw
  {
    match e
    case Construct(x, p) => AssignmentsKeep(s, x, p);
    case CopyConstruct(x, y) => AssignmentsKeep(s, x, s.slots[y]);
    case MoveConstruct(x, y) => MovesKeep(s, x, y);
    case Destroy(x) => DestructionKeeps(s, x);
    case AssignRaw(x, p) => AssignmentsKeep(s, x, p);
    case AssignCopy(x, y) => AssignmentsKeep(s, x, s.slots[y]);
    case AssignMove(x, y) => MovesKeep(s, x, y);
    case _ =>
  }

  /** Move assignment builds a temporary from the source, swaps it with the target and destroys it.
      For any two slots, also for one and the same, that moves the reference and drops the old one. */
  lemma MoveThroughTemporary(s: State, x: Slot, y: Slot, t: Slot)
    requires x in s.slots && y in s.slots && t !in s.slots
    ensures Destroyed(Swapped(Moved(s, t, y), t, x), t)
            == AssignMoved(s, x, y).(loose := Destroyed(Swapped(Moved(s, t, y), t, x), t).loose)
  {
    var m := Swapped(Moved(s, t, y), t, x);
    TemporarySlots(s.slots, x, y, t);
    assert m.counts == s.counts && m.deleted == s.deleted && m.raw == s.raw && m.created == s.created;
  }

  lemma TemporarySlots(slots: map<Slot, Option<Object>>, x: Slot, y: Slot, t: Slot)
    requires x in slots && y in slots && t !in slots
    ensures var m := slots[y := None][t := slots[y]];
            var n := m[t := m[x]][x := m[t]];
            && n[t] == (if x == y then None else slots[x])
            && n[t := None] - {t} == if x == y then slots else slots[y := None][x := slots[y]]
  {
  }
}
