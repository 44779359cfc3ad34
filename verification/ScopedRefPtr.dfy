/**
 `RefCountedBase` and `scoped_refptr` as code that updates counts and slots in place, in the order of
 the source. Each operation is proved to have the effect that RefPtrSpec gives it.
 */
module ScopedRefPtrs {
  import opened Common
  import opened RefPtrSpec

  datatype ReleaseStatus = DroppedLastRef | OtherRefsRemained

  class RefHeap {
    var slots: map<Slot, Option<Object>>
    var counts: map<Object, nat>
    ghost var loose: Tally
    ghost var raw: set<Object>
    ghost var created: Tally
    ghost var deleted: Tally

    ghost function View(): State
      reads this
    {
      State(slots, counts, loose, raw, created, deleted)
    }

    constructor ()
      ensures View() == Init() && Valid(View())
    {
      slots, counts := map[], map[];
      loose, raw, created, deleted := map[], {}, map[], map[];
      new;
      Conservation([]);
    }

    // ------------------------------------------------------------- RefCountedBase

    method AddRef(o: Object)
      requires o in counts
      modifies this`counts, this`raw
      ensures View() == Grab(old(View()), Some(o)).(loose := loose)
    {
      counts := counts[o := counts[o] + 1];
      raw := raw - {o};
    }

    /** The object is deleted by the release that brings its count to zero. */
    method Release(o: Object) returns (status: ReleaseStatus)
      requires o in counts && counts[o] > 0
      modifies this`counts, this`deleted
      ensures status == DroppedLastRef <==> old(counts)[o] == 1
      ensures View() == Drop(old(View()), Some(o)).(loose := loose)
    {
      counts := counts[o := counts[o] - 1];
      if counts[o] == 0 {
        status := DroppedLastRef;
        counts := counts - {o};
        deleted := More(deleted, Some(o));
      } else {
        status := OtherRefsRemained;
      }
    }

    /** new T : the count starts at zero. */
    method Create(o: Object)
      requires Valid(View()) && o !in counts
      modifies this`counts, this`raw, this`created
      ensures View() == NewObject(old(View()), o) && Valid(View())
    {
      NewKeeps(View(), o);
      counts := counts[o := 0];
      raw, created := raw + {o}, More(created, Some(o));
    }

    // ------------------------------------------------------------- scoped_refptr

    method Construct(x: Slot, p: Option<Object>)
      requires Valid(View()) && x !in slots && (p.Some? ==> p.value in counts)
      modifies this
      ensures View() == Constructed(old(View()), x, p) && Valid(View())
    {
      ghost var s := View();
      slots := slots[x := p];
      if p.Some? {
        AddRef(p.value);
      }
      loose := Constructed(s, x, p).loose;
      assert View() == Constructed(s, x, p);
      ConstructKeeps(s, x, p);
    }

    method CopyConstruct(x: Slot, y: Slot)
      requires Valid(View()) && x !in slots && y in slots
      modifies this
      ensures View() == Constructed(old(View()), x, old(slots)[y]) && Valid(View())
    {
      Construct(x, slots[y]);
    }

    /** T* release() : the count is not touched. */
    method ReleaseSlot(x: Slot) returns (p: Option<Object>)
      requires Valid(View()) && x in slots
      modifies this`slots, this`loose
      ensures View() == Put(old(View()), x, None) && Valid(View()) && p == old(slots)[x]
    {
      PutKeeps(View(), x, None);
      p := slots[x];
      slots := slots[x := None];
      loose := More(loose, p);
    }

    /** The move constructor takes over what release() hands out. */
    method MoveConstruct(x: Slot, y: Slot)
      requires Valid(View()) && x !in slots && y in slots
      modifies this`slots, this`loose
      ensures View() == Moved(old(View()), x, y) && Valid(View())
    {
      MoveKeeps(View(), x, y);
      var p := ReleaseSlot(y);
      slots, loose := slots[x := p], Less(loose, p);
    }

    method Destroy(x: Slot)
      requires Valid(View()) && x in slots
      modifies this
      ensures View() == Destroyed(old(View()), x) && Valid(View())
    {
      ghost var s := View();
      HeldIsCounted(s, x);
      if slots[x].Some? {
        var _ := Release(slots[x].value);
      }
      slots := slots - {x};
      loose := Destroyed(s, x).loose;
      DestroyedShape(s, x);
      DestroyKeeps(s, x);
    }

    /** AddRef first, so that self assignment works. */
    method AssignRaw(x: Slot, p: Option<Object>)
      requires Valid(View()) && x in slots && (p.Some? ==> p.value in counts)
      modifies this
      ensures View() == Assigned(old(View()), x, p) && Valid(View())
    {
      ghost var s := View();
      HeldIsCounted(s, x);
      if p.Some? {
        AddRef(p.value);
      }
      if slots[x].Some? {
        var _ := Release(slots[x].value);
      }
      slots := slots[x := p];
      loose := Assigned(s, x, p).loose;
      assert View() == Assigned(s, x, p);
      AssignKeeps(s, x, p);
    }

    method AssignCopy(x: Slot, y: Slot)
      requires Valid(View()) && x in slots && y in slots
      modifies this
      ensures View() == Assigned(old(View()), x, old(slots)[y]) && Valid(View())
    {
      AssignRaw(x, slots[y]);
    }

    method Swap(x: Slot, y: Slot)
      requires Valid(View()) && x in slots && y in slots
      modifies this`slots
      ensures View() == Swapped(old(View()), x, y) && Valid(View())
    {
      SwapKeeps(View(), x, y);
      var p := slots[x];
      slots := slots[x := slots[y]];
      slots := slots[y := p];
    }

    /** scoped_refptr<T>(std::move(r)).swap(*this) : `t` is the temporary, destroyed at the end. */
    method AssignMove(x: Slot, y: Slot, t: Slot)
      requires Valid(View()) && x in slots && y in slots && t !in slots
      modifies this
      ensures View() == AssignMoved(old(View()), x, y).(loose := loose) && Valid(View())
      ensures forall o: Object :: Of(loose, o) == Of(old(loose), o)
    {
      ghost var s := View();
      MoveConstruct(t, y);
      Swap(t, x);
      Destroy(t);
      assert View() == Destroyed(Swapped(Moved(s, t, y), t, x), t);
      MoveThroughTemporary(s, x, y, t);
      TemporaryLoose(s, View(), x, y);
    }
  }

  /** What a slot holds is alive and counted. */
  lemma HeldIsCounted(s: State, x: Slot)
    requires Valid(s) && x in s.slots
    ensures s.slots[x].Some? ==> Of(s.counts, s.slots[x].value) > 0
  {
    if s.slots[x].Some? {
      var o := s.slots[x].value;
      assert Balance(s, o);
      HoldersZero(s.slots, o);
    }
  }
}
