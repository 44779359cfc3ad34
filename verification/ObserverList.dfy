/**
 `ObserverList` and its iterators as objects that update each other in place. Each method is proved
 to perform the corresponding function of ObserverListSpec on the view of the list it works on.
 The weak link node that every iterator carries is folded into the iterator.
 */
module ObserverLists {
  import opened Common
  import opened Sequences
  import opened ObserverListSpec

  /** The live iterators without `it`. */
  function Unlinked(nodes: seq<Iter>, it: Iter): (r: seq<Iter>)
    ensures forall n :: n in r ==> n in nodes && n != it
    ensures forall n :: n in nodes && n != it ==> n in r
    ensures Distinct(nodes) ==> Distinct(r)
    ensures |r| <= |nodes| && (it in nodes ==> |r| < |nodes|)
  {
    if nodes == [] then []
    else if nodes[0] == it then
      assert Distinct(nodes) ==> Distinct(nodes[1..]);
      Unlinked(nodes[1..], it)
    else
      assert Distinct(nodes) ==> Distinct(nodes[1..]) && nodes[0] !in nodes[1..];
      [nodes[0]] + Unlinked(nodes[1..], it)
  }

  class ObserverList {
    const policy: Policy
    var observers: seq<Pointer>
    var liveIterators: seq<Iter>

    ghost function View(): State<Iter>
      reads this, liveIterators
    {
      State(policy, observers, map it | it in liveIterators :: Cursor(it.index, it.maxIndex))
    }

    ghost predicate Linked()
      reads this, liveIterators
    {
      Distinct(liveIterators) && forall it :: it in liveIterators ==> it.list == this
    }

    ghost predicate WellFormed()
      reads this, liveIterators
    {
      Linked() && Valid(View())
    }

    constructor (policy: Policy)
      ensures WellFormed() && View() == Init(policy)
    {
      this.policy := policy;
      observers, liveIterators := [], [];
    }

    method FindSlot(obs: Pointer) returns (k: nat)
      ensures k == Find(observers, obs)
    {
      k := 0;
      while k < |observers| && observers[k] != obs
        invariant k <= |observers|
        invariant forall j :: 0 <= j < k ==> observers[j] != obs
      {
        k := k + 1;
      }
    }

    method HasObserver(obs: Pointer) returns (found: bool)
      ensures found == ObserverListSpec.HasObserver(View(), obs)
    {
      if obs == NULL {
        return false;
      }
      var k := FindSlot(obs);
      return k < |observers|;
    }

    method AddObserver(obs: Pointer)
      requires WellFormed() && obs != NULL
      modifies this`observers
      ensures WellFormed()
      ensures View() == ObserverListSpec.AddObserver(old(View()), obs)
    {
      StepKeepsValid(View(), Add(obs));
      var found := HasObserver(obs);
      if found {
        return;
      }
      observers := observers + [obs];
    }

    method RemoveObserver(obs: Pointer)
      requires WellFormed() && obs != NULL
      modifies this`observers
      ensures WellFormed()
      ensures View() == ObserverListSpec.RemoveObserver(old(View()), obs)
    {
      StepKeepsValid(View(), Remove(obs));
      NoCursors();
      var k := FindSlot(obs);
      if k == |observers| {
        return;
      }
      if liveIterators == [] {
        observers := observers[..k] + observers[k + 1..];
      } else {
        observers := observers[k := NULL];
      }
    }

    method Clear()
      requires WellFormed()
      modifies this`observers
      ensures WellFormed()
      ensures View() == ClearAll(old(View()))
    {
      StepKeepsValid(View(), Event<Iter>.Clear);
      NoCursors();
      if liveIterators == [] {
        observers := [];
      } else {
        for k := 0 to |observers|
          invariant |observers| == |old(observers)|
          invariant forall j :: 0 <= j < k ==> observers[j] == NULL
        {
          observers := observers[k := NULL];
        }
        assert observers == seq(|observers|, _ => NULL);
      }
    }

    method Compact()
      modifies this`observers
      ensures observers == Compacted(old(observers))
    {
      var kept := [];
      for k := 0 to |observers|
        invariant observers == old(observers)
        invariant Compacted(observers) == kept + Compacted(observers[k..])
      {
        assert observers[k..][1..] == observers[k + 1..];
        if observers[k] != NULL {
          kept := kept + [observers[k]];
        }
      }
      observers := kept;
    }

    method Begin() returns (it: Iter)
      requires WellFormed()
      modifies this`liveIterators
      ensures fresh(it) && WellFormed() && it.Attached()
      ensures it.list == if observers == [] then null else this
      ensures View() == BeginLoop(old(View()), it)
    {
      if observers == [] {
        it := new Iter.End();
      } else {
        it := new Iter(this);
      }
    }

    /** The destructor: every iterator is detached, however many there are. */
    method Destroy()
      requires WellFormed()
      modifies this`liveIterators, liveIterators`list
      ensures liveIterators == []
      ensures forall it :: it in old(liveIterators) ==> it.list == null
    {
      while liveIterators != []
        invariant Linked()
        invariant forall it :: it in liveIterators ==> it in old(liveIterators)
        invariant forall it :: it in old(liveIterators) ==> it.list == null || it in liveIterators
        decreases |liveIterators|
      {
        var head := liveIterators[0];
        assert head in liveIterators;
        head.Invalidate();
      }
    }

    lemma NoCursors()
      ensures View().cursors == map[] <==> liveIterators == []
    {
      if liveIterators != [] {
        assert liveIterators[0] in View().cursors;
      }
    }
  }

  class Iter {
    var list: ObserverList?
    var index: nat
    var maxIndex: Bound

    /** The link between an iterator and its list runs both ways. */
    ghost predicate Attached()
      reads this, list, if list == null then [] else list.liveIterators
    {
      list != null ==> list.WellFormed() && this in list.liveIterators
    }

    /** `end()`, and the default constructor. */
    constructor End()
      ensures list == null
    {
      list, index, maxIndex := null, 0, Limit(0);
    }

    constructor (l: ObserverList)
      requires l.WellFormed()
      modifies l`liveIterators
      ensures list == l && Attached()
      ensures l.View() == AttachCursor(old(l.View()), this)
    {
      list, index := null, 0;
      maxIndex := if l.policy == All then Unbounded else Limit(|l.observers|);
      new;
      Enter(l);
    }

    /** The rest of the construction: the iterator joins the list and skips the marked slots. */
    method Enter(l: ObserverList)
      requires l.WellFormed() && list == null
      requires index == 0 && maxIndex == InitialBound(l.policy, |l.observers|)
      modifies this`list, this`index, l`liveIterators
      ensures list == l && Attached()
      ensures l.View() == AttachCursor(old(l.View()), this)
    {
      ghost var before := l.View();
      assert this !in l.liveIterators;
      SetList(l);
      EnsureValidIndex();
      assert l.View().cursors == AttachCursor(before, this).cursors;
      StepKeepsValid(before, Event.Construct(this));
    }

    constructor Copy(other: Iter)
      requires other.Attached()
      modifies if other.list == null then {} else {other.list}
      ensures list == old(other.list) && index == other.index && maxIndex == other.maxIndex && Attached()
      ensures list != null ==> list.liveIterators == old(other.list.liveIterators) + [this]
      ensures list != null ==> list.View() == CopyCursor(old(other.list.View()), other, this)
    {
      list, index, maxIndex := null, other.index, other.maxIndex;
      new;
      Join(other);
    }

    /** What copying and assigning have in common, for an iterator that is not attached. */
    method Join(other: Iter)
      requires list == null && other != this && other.Attached()
      modifies this, if other.list == null then {} else {other.list}
      ensures list == old(other.list) && index == old(other.index) && maxIndex == old(other.maxIndex)
      ensures Attached()
      ensures list != null ==> list.liveIterators == old(other.list.liveIterators) + [this]
      ensures list != null ==> list.View() == CopyCursor(old(other.list.View()), other, this)
    {
      var l := other.list;
      assert l != null ==> this !in l.liveIterators;
      index, maxIndex := other.index, other.maxIndex;
      if l != null {
        ghost var before := l.View();
        assert before == old(l.View());
        SetList(l);
        assert forall it :: it in l.liveIterators <==> it in old(l.liveIterators) || it == this;
        assert l.View().cursors == CopyCursor(before, other, this).cursors;
        StepKeepsValid(before, Event.Copy(other, this));
      }
    }

    method SetList(l: ObserverList)
      requires list == null && l.Linked()
      modifies this`list, l`liveIterators
      ensures list == l && l.liveIterators == old(l.liveIterators) + [this] && l.Linked()
    {
      assert this !in l.liveIterators;
      list := l;
      l.liveIterators := l.liveIterators + [this];
    }

    method Invalidate()
      requires list != null ==> list.Linked()
      modifies this`list, (if list == null then {} else {list})`liveIterators
      ensures list == null
      ensures old(list) != null ==>
                && old(list).Linked()
                && old(list).liveIterators == Unlinked(old(list.liveIterators), this)
    {
      if list != null {
        var l := list;
        list := null;
        l.liveIterators := Unlinked(l.liveIterators, this);
      }
    }

    /** head() == tail() holds of a list with one node; this iterator is in the list. */
    predicate IsOnlyRemainingNode()
      reads this, list
    {
      list != null && list.liveIterators != []
      && list.liveIterators[0] == list.liveIterators[|list.liveIterators| - 1]
    }

    lemma OnlyRemaining()
      requires list != null && Attached()
      ensures IsOnlyRemainingNode() <==> list.View().cursors.Keys == {this}
    {
      var nodes := list.liveIterators;
      assert list.View().cursors.Keys == set it | it in nodes;
      if IsOnlyRemainingNode() {
        assert |nodes| == 1;
      } else {
        assert nodes[0] in list.View().cursors && nodes[|nodes| - 1] in list.View().cursors;
      }
    }

    method EnsureValidIndex()
      requires list != null
      modifies this`index
      ensures index == Skip(list.observers, old(index), Clamp(maxIndex, |list.observers|))
    {
      var max := Clamp(maxIndex, |list.observers|);
      while index < max && list.observers[index] == NULL
        invariant Skip(list.observers, old(index), max) == Skip(list.observers, index, max)
        decreases max - index
      {
        index := index + 1;
      }
    }

    predicate IsEnd()
      reads this, list
    {
      list == null || index == Clamp(maxIndex, |list.observers|)
    }

    /** Comparison with an iterator that is at its end, in particular end(), is the end test. */
    predicate Equals(other: Iter)
      reads this, list, other, other.list
    {
      (IsEnd() && other.IsEnd()) || (list == other.list && index == other.index)
    }

    /** Away from the end, iterators are equal exactly if they are at the same place of one list; two
        at their ends are equal whatever their lists. */
    lemma EqualsIff(other: Iter)
      ensures Equals(other) <==> if IsEnd() && other.IsEnd() then true else list == other.list && index == other.index
      ensures list != null && list == other.list && !IsEnd() ==> (Equals(other) <==> index == other.index)
      ensures list != other.list && !IsEnd() ==> !Equals(other)
    {
    }

    lemma EndTest(end: Iter)
      requires end.list == null
      ensures Equals(end) <==> IsEnd()
      ensures list != null && this in list.liveIterators ==> (IsEnd() <==> AtEnd(list.View(), this))
    {
    }

    /** operator++ : nothing happens to a detached iterator. An attached one stays well formed exactly
        if it was not at its end. */
    method Next()
      requires Attached()
      modifies this`index
      ensures Attached() <==> list == null || !old(IsEnd())
      ensures list == null ==> index == old(index)
      ensures list != null ==> list.View() == Advance(old(list.View()), this)
    {
      if list != null {
        AdvanceStaysInRangeIff(list.View(), this);
        Move();
      }
    }

    method Move()
      requires list != null && list.Linked() && this in list.liveIterators
      modifies this`index
      ensures list.View() == Advance(old(list.View()), this)
    {
      ghost var before := list.View();
      index := index + 1;
      EnsureValidIndex();
      assert list.View().cursors == Advance(before, this).cursors;
    }

    /** operator++(int) : the copy stays where the iterator was. */
    method PostIncrement() returns (it: Iter)
      requires Attached()
      modifies this`index, if list == null then {} else {list}
      ensures fresh(it) && list == old(list) == it.list
      ensures list != null ==> list.Linked() && list.liveIterators == old(list.liveIterators) + [it]
      ensures it.Attached() <==> Attached()
      ensures Attached() <==> list == null || !old(IsEnd())
      ensures it.index == old(index) && it.maxIndex == maxIndex
      ensures list != null ==> list.View() == Advance(CopyCursor(old(list.View()), this, it), this)
    {
      it := new Iter.Copy(this);
      Next();
    }

    method GetCurrent() returns (o: Pointer)
      requires Attached() && list != null && !IsEnd()
      ensures index < |list.observers| && o == list.observers[index]
    {
      assert this in list.View().cursors;
      o := list.observers[index];
    }

    /** The destructor of the link node: the cursor goes, the slots and the other cursors stay. */
    method Unlink()
      requires list != null && list.Linked() && this in list.liveIterators
      modifies this`list, list`liveIterators
      ensures list == null && old(list).Linked()
      ensures old(list).liveIterators == Unlinked(old(list.liveIterators), this)
      ensures old(list).View() == old(list.View()).(cursors := old(list.View()).cursors - {this})
    {
      ghost var l, before := list, list.View();
      Invalidate();
      assert l.View().cursors == before.cursors - {this};
    }

    /** ~Iter(), and the first half of operator= : the last iterator to leave compacts the list, and
        an iterator that is not attached touches nothing. */
    method Leave()
      requires Attached()
      modifies this`list, if list == null then {} else {list}
      ensures list == null
      ensures old(list) != null ==>
                old(list).WellFormed() && old(list).liveIterators == Unlinked(old(list.liveIterators), this)
      ensures old(list) != null ==> old(list).View() == Detach(old(list.View()), this)
    {
      if list != null {
        ghost var before := list.View();
        OnlyRemaining();
        var l := list;
        if IsOnlyRemainingNode() {
          l.Compact();
        }
        Unlink();
        DetachKeepsValid(before, this);
      }
    }

    /** operator= between iterators of one list, of two lists, or of none. */
    method Assign(other: Iter)
      requires Attached() && other.Attached()
      modifies this, if list == null then {} else {list}, if other.list == null then {} else {other.list}
      ensures list == old(other.list) && index == old(other.index) && maxIndex == old(other.maxIndex)
      ensures Attached()
      ensures old(list) != null && old(list) != list ==>
                old(list).WellFormed() && old(list).View() == Detach(old(list.View()), this)
      ensures old(list) != null && old(list) == list ==>
                list.View() == AssignCursor(old(list.View()), this, other)
      ensures old(list) != list && list != null ==>
                list.View() == CopyCursor(old(other.list.View()), other, this)
    {
      if other == this {
        return;
      }
      if list == other.list {
        AssignWithin(other);
      } else {
        AssignAcross(other);
      }
    }

    method AssignWithin(other: Iter)
      requires Attached() && other.Attached() && other != this && list == other.list
      modifies this, if list == null then {} else {list}
      ensures list == old(list) && index == other.index && maxIndex == other.maxIndex
      ensures Attached()
      ensures list != null ==> list.View() == AssignCursor(old(list.View()), this, other)
    {
      Leave();
      Join(other);
    }

    method AssignAcross(other: Iter)
      requires Attached() && other.Attached() && other != this && list != other.list
      modifies this, if list == null then {} else {list}, if other.list == null then {} else {other.list}
      ensures list == old(other.list) && index == other.index && maxIndex == other.maxIndex
      ensures Attached()
      ensures old(list) != null ==> old(list).WellFormed() && old(list).View() == Detach(old(list.View()), this)
      ensures list != null ==> list.View() == CopyCursor(old(other.list.View()), other, this)
    {
      ghost var a := list;
      LeaveBeside(other.list);
      JoinBeside(other, a);
    }

    /** A list that the iterator does not belong to is not affected when it leaves its own. */
    method LeaveBeside(ghost b: ObserverList?)
      requires Attached() && b != list && (b != null ==> b.WellFormed())
      modifies this`list, if list == null then {} else {list}
      ensures list == null
      ensures old(list) != null ==> old(list).WellFormed() && this !in old(list).liveIterators
      ensures old(list) != null ==> old(list).View() == Detach(old(list.View()), this)
      ensures b != null ==> b.WellFormed() && b.View() == old(b.View()) && b.liveIterators == old(b.liveIterators)
    {
      assert b != null ==> forall it :: it in b.liveIterators ==> it != this;
      Leave();
      assert b != null ==> b.View() == old(b.View()) && b.liveIterators == old(b.liveIterators);
    }

    /** A list that the iterator does not belong to is not affected when it joins another. */
    method JoinBeside(other: Iter, ghost a: ObserverList?)
      requires list == null && other != this && other.Attached() && a != other.list
      requires a != null ==> a.WellFormed() && this !in a.liveIterators
      modifies this, if other.list == null then {} else {other.list}
      ensures list == old(other.list) && index == old(other.index) && maxIndex == old(other.maxIndex)
      ensures Attached()
      ensures list != null ==> list.View() == CopyCursor(old(other.list.View()), other, this)
      ensures a != null ==> a.WellFormed() && a.View() == old(a.View())
    {
      Join(other);
    }
  }
}
