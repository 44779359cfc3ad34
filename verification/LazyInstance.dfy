/**
 `GetOrCreateLazyPointer` called by any number of threads, each any number of times, in any
 interleaving. Each access to the state word is one step. `NeedsLazyInstance` and
 `CompleteLazyInstance` are modelled from their stated contracts: the first turns an uninitialized
 word into "creating" for exactly one caller and makes the others wait, the second stores the instance.
 */
module LazyInstance {
  import Sequences

  type Thread = nat
  type Word = int

  const UNINITIALIZED: Word := 0
  const CREATING: Word := 1

  /** Some bit of kLazyInstanceCreatedMask, the complement of 1, is set. */
  predicate Created(w: Word) {
    w != UNINITIALIZED && w != CREATING
  }

  datatype Pc =
    | Entered                    // before the fast-path load
    | Slow                       // the load saw no instance; NeedsLazyInstance is called
    | Waiting                    // in NeedsLazyInstance, another thread is creating
    | Creating                   // NeedsLazyInstance returned true; the creator runs
    | Made(instance: Word)       // the creator has returned; CompleteLazyInstance is called
    | Reloading                  // NeedsLazyInstance returned false; the word is loaded again
    | Returned(instance: Word)

  datatype State = State(
    word: Word,
    pcs: map<Thread, Pc>,        // the threads that have called at least once
    creations: nat,              // how often a creator was run
    results: seq<Word>)          // everything returned, in order

  datatype Event =
    | Call(t: Thread)
    | Advance(t: Thread, made: Word)     // `made` is what the creator returns, if this step runs it

  predicate Enabled(s: State, e: Event) {
    match e
    case Call(t) => t in s.pcs ==> s.pcs[t].Returned?
    case Advance(t, made) => t in s.pcs && !s.pcs[t].Returned? && Created(made)
  }

  function Return(s: State, t: Thread, w: Word): State {
    s.(pcs := s.pcs[t := Returned(w)], results := s.results + [w])
  }

  function Step(s: State, e: Event): State
    requires Enabled(s, e)
  {
    match e
    case Call(t) => s.(pcs := s.pcs[t := Entered])
    case Advance(t, made) =>
      match s.pcs[t]
      case Entered => if Created(s.word) then Return(s, t, s.word) else s.(pcs := s.pcs[t := Slow])
      case Slow =>
        if s.word == UNINITIALIZED then s.(word := CREATING, pcs := s.pcs[t := Creating])
        else if s.word == CREATING then s.(pcs := s.pcs[t := Waiting])
        else s.(pcs := s.pcs[t := Reloading])
      case Waiting => if s.word == CREATING then s else s.(pcs := s.pcs[t := Reloading])
      case Creating => s.(pcs := s.pcs[t := Made(made)], creations := s.creations + 1)
      case Made(instance) => Return(s.(word := instance), t, instance)
      case Reloading => Return(s, t, s.word)
      case Returned(_) => s
  }

  predicate RunOk(s: State, es: seq<Event>)
    decreases |es|
  {
    es != [] ==> Enabled(s, es[0]) && RunOk(Step(s, es[0]), es[1..])
  }

  function Run(s: State, es: seq<Event>): State
    requires RunOk(s, es)
    decreases |es|
  {
    if es == [] then s else Run(Step(s, es[0]), es[1..])
  }

  const INIT: State := State(UNINITIALIZED, map[], 0, [])

  // ---------------------------------------------------------------- invariant

  /** The thread holds the word as its spinlock. */
  predicate Owns(pc: Pc) {
    pc.Creating? || pc.Made?
  }

  ghost predicate Valid(s: State) {
    // the word says whether some thread owns it, and never more than one does
    && (s.word == CREATING <==> exists t :: t in s.pcs && Owns(s.pcs[t]))
    && (forall t, u :: t in s.pcs && u in s.pcs && Owns(s.pcs[t]) && Owns(s.pcs[u]) ==> t == u)
    // a creator has run exactly if its result is on its way or in the word
    && s.creations <= 1
    && (s.creations == 1 <==> Created(s.word) || exists t :: t in s.pcs && s.pcs[t].Made?)
    && (forall t :: t in s.pcs && s.pcs[t].Made? ==> Created(s.pcs[t].instance))
    // nobody waits before the word was taken, nobody goes on before the instance is there
    && (forall t :: t in s.pcs && s.pcs[t].Waiting? ==> s.word != UNINITIALIZED)
    && (forall t :: t in s.pcs && (s.pcs[t].Reloading? || s.pcs[t].Returned?) ==> Created(s.word))
    && (forall t :: t in s.pcs && s.pcs[t].Returned? ==> s.pcs[t].instance == s.word)
    && (s.results != [] ==> Created(s.word))
    && (forall w :: w in s.results ==> w == s.word)
  }

  /** A step that neither takes, fills nor uses the spinlock. */
  lemma QuietStepKeepsValid(s: State, t: Thread, pc: Pc, results: seq<Word>)
    requires Valid(s) && !Owns(pc) && (t in s.pcs ==> !Owns(s.pcs[t]))
    requires pc.Waiting? ==> s.word != UNINITIALIZED
    requires pc.Reloading? || pc.Returned? ==> Created(s.word)
    requires pc.Returned? ==> pc.instance == s.word
    requires results != [] ==> s.results != [] || Created(s.word)
    requires forall w :: w in results ==> w in s.results || w == s.word
    ensures Valid(s.(pcs := s.pcs[t := pc], results := results))
  {
    var u := s.(pcs := s.pcs[t := pc], results := results);
    forall x | x in s.pcs && Owns(s.pcs[x]) ensures x in u.pcs && Owns(u.pcs[x]) && u.pcs[x] == s.pcs[x] {
      assert x != t;
    }
  }

  lemma TakingKeepsValid(s: State, t: Thread)
    requires Valid(s) && t in s.pcs && s.pcs[t].Slow? && s.word == UNINITIALIZED
    ensures Valid(s.(word := CREATING, pcs := s.pcs[t := Creating]))
  {
    var u := s.(word := CREATING, pcs := s.pcs[t := Creating]);
    assert forall x :: x in s.pcs ==> !Owns(s.pcs[x]);
    assert t in u.pcs && Owns(u.pcs[t]);
  }

  lemma CreatingKeepsValid(s: State, t: Thread, made: Word)
    requires Valid(s) && t in s.pcs && s.pcs[t].Creating? && Created(made)
    ensures Valid(s.(pcs := s.pcs[t := Made(made)], creations := s.creations + 1))
  {
    var u := s.(pcs := s.pcs[t := Made(made)], creations := s.creations + 1);
    assert Owns(s.pcs[t]);
    assert forall x :: x in s.pcs && x != t ==> !Owns(s.pcs[x]);
    assert t in u.pcs && Owns(u.pcs[t]) && u.pcs[t].Made?;
  }

  lemma CompletingKeepsValid(s: State, t: Thread)
    requires Valid(s) && t in s.pcs && s.pcs[t].Made?
    ensures Valid(Return(s.(word := s.pcs[t].instance), t, s.pcs[t].instance))
  {
    assert Owns(s.pcs[t]);
    assert forall x :: x in s.pcs && x != t ==> !Owns(s.pcs[x]);
  }

  lemma StepKeepsValid(s: State, e: Event)
    requires Valid(s) && Enabled(s, e)
    ensures Valid(Step(s, e))
  {
    match e
    case Call(t) => QuietStepKeepsValid(s, t, Entered, s.results);
    case Advance(t, made) =>
      match s.pcs[t]
      case Slow =>
        if s.word == UNINITIALIZED {
          TakingKeepsValid(s, t);
        } else {
          QuietStepKeepsValid(s, t, if s.word == CREATING then Waiting else Reloading, s.results);
        }
      case Creating => CreatingKeepsValid(s, t, made);
      case Made(_) => CompletingKeepsValid(s, t);
      case Entered =>
        if Created(s.word) {
          QuietStepKeepsValid(s, t, Returned(s.word), s.results + [s.word]);
        } else {
          QuietStepKeepsValid(s, t, Slow, s.results);
        }
      case Waiting => QuietStepKeepsValid(s, t, if s.word == CREATING then Waiting else Reloading, s.results);
      case Reloading => QuietStepKeepsValid(s, t, Returned(s.word), s.results + [s.word]);
      case Returned(_) =>
  }

  /** The word only moves from uninitialized to creating to the instance, and then stays. */
  lemma WordMovesForward(s: State, e: Event)
    requires Valid(s) && Enabled(s, e)
    ensures var w := Step(s, e).word;
            || w == s.word
            || (s.word == UNINITIALIZED && w == CREATING)
            || (s.word == CREATING && Created(w))
  {
    if e.Advance? && s.pcs[e.t].Made? {
      assert Owns(s.pcs[e.t]);
    }
  }

  lemma {:induction false} RunIsValid(s: State, es: seq<Event>)
    requires Valid(s) && RunOk(s, es)
    ensures Valid(Run(s, es))
    ensures Created(s.word) ==> Run(s, es).word == s.word
    decreases |es|
  {
    if es != [] {
      StepKeepsValid(s, es[0]);
      WordMovesForward(s, es[0]);
      RunIsValid(Step(s, es[0]), es[1..]);
    }
  }

  /** What the creator returns in this step, if the step runs it. */
  function MadeBy(s: State, e: Event): seq<Word>
    requires Enabled(s, e)
  {
    if e.Advance? && s.pcs[e.t].Creating? then [e.made] else []
  }

  /** Everything that creators return in a run. */
  function MadeIn(s: State, es: seq<Event>): seq<Word>
    requires RunOk(s, es)
    decreases |es|
  {
    if es == [] then [] else MadeBy(s, es[0]) + MadeIn(Step(s, es[0]), es[1..])
  }

  /** `made` is what creators have returned: it is on its way into the word, or there. */
  ghost predicate Holds(s: State, made: seq<Word>) {
    && |made| == s.creations
    && (forall t :: t in s.pcs && s.pcs[t].Made? ==> made == [s.pcs[t].instance])
    && (Created(s.word) ==> made == [s.word])
  }

  lemma StepHolds(s: State, e: Event, made: seq<Word>)
    requires Valid(s) && Enabled(s, e) && Holds(s, made)
    ensures Holds(Step(s, e), made + MadeBy(s, e))
  {
    assert made + [] == made;
    if e.Advance? && Owns(s.pcs[e.t]) {
      assert forall x :: x in s.pcs && x != e.t ==> !Owns(s.pcs[x]);
    }
  }

  lemma {:induction false} RunHolds(s: State, es: seq<Event>, made: seq<Word>)
    requires Valid(s) && RunOk(s, es) && Holds(s, made)
    ensures Holds(Run(s, es), made + MadeIn(s, es))
    decreases |es|
  {
    if es == [] {
      assert made + [] == made;
    } else {
      var t, more := Step(s, es[0]), MadeBy(s, es[0]);
      StepKeepsValid(s, es[0]);
      StepHolds(s, es[0], made);
      RunHolds(t, es[1..], made + more);
      Sequences.Assoc(made, more, MadeIn(t, es[1..]));
    }
  }

  /** In every run: creators run at most once, and every call that returns, at any time, returns what
      the creator returned, which is neither null nor the creating marker. */
  lemma OneInstance(es: seq<Event>)
    requires RunOk(INIT, es)
    ensures var s, made := Run(INIT, es), MadeIn(INIT, es);
            && Valid(s)
            && |made| == s.creations <= 1
            && (Created(s.word) ==> made == [s.word])
            && (forall i :: 0 <= i < |s.results| ==> made == [s.results[i]] && Created(s.results[i]))
            && (forall t :: t in s.pcs && s.pcs[t].Returned? ==> made == [s.pcs[t].instance])
  {
    RunIsValid(INIT, es);
    RunHolds(INIT, es, []);
    var s := Run(INIT, es);
    assert [] + MadeIn(INIT, es) == MadeIn(INIT, es);
    ResultsAreWord(s);
  }

  lemma ResultsAreWord(s: State)
    requires Valid(s)
    ensures forall i :: 0 <= i < |s.results| ==> Created(s.word) && s.results[i] == s.word
  {
    forall i | 0 <= i < |s.results| ensures Created(s.word) && s.results[i] == s.word {
      assert s.results[i] in s.results;
    }
  }

  /** A call is reported when it returns, and only then. */
  lemma ReportsReturns(s: State, e: Event)
    requires Enabled(s, e)
    ensures var u := Step(s, e);
            u.results == s.results + if e.Advance? && u.pcs[e.t].Returned? then [u.pcs[e.t].instance] else []
  {
  }

  // ---------------------------------------------------------------- progress

  /** How many steps a call still needs, not counting those spent waiting. */
  function Remaining(pc: Pc): nat {
    match pc
    case Entered => 4
    case Slow => 3
    case Waiting => 2
    case Creating => 2
    case Made(_) => 1
    case Reloading => 1
    case Returned(_) => 0
  }

  predicate Spins(s: State, t: Thread)
    requires t in s.pcs
  {
    s.pcs[t].Waiting? && s.word == CREATING
  }

  /** A step that does not spin brings its thread closer to its return and touches no other thread. */
  lemma StepAdvances(s: State, e: Event)
    requires Valid(s) && Enabled(s, e) && e.Advance? && !Spins(s, e.t)
    ensures var u := Step(s, e);
            && Remaining(u.pcs[e.t]) < Remaining(s.pcs[e.t])
            && (forall x :: x in s.pcs && x != e.t ==> u.pcs[x] == s.pcs[x])
  {
  }

  /** While a call is unfinished some unfinished call can make such a step: waiting threads wait for
      a thread that is not waiting. */
  lemma NoDeadlock(s: State, t: Thread)
    requires Valid(s) && t in s.pcs && !s.pcs[t].Returned?
    ensures exists x :: x in s.pcs && !s.pcs[x].Returned? && !Spins(s, x)
  {
    if Spins(s, t) {
      var x :| x in s.pcs && Owns(s.pcs[x]);
      assert !Spins(s, x);
    }
  }
}
