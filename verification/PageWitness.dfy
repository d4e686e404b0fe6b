/** Two runs from boot: to a write fault that forgets that its page differs from the disk, and to one that is not resolved. */
module PageWitness {
  import opened Lists
  import opened PageState
  import opened PageSteps
  import opened PageEntrySteps
  import opened PageCacheSteps
  import opened PageRuns
  import opened PageFaults

  /** The slot of a process and the same slot of its child. */
  const PARENT := User(0, 0)
  const CHILD := User(1, 0)

  /** A machine with one page and one swap entry: what differs along the run. */
  datatype Snap = Snap(pte: map<Slot, Pte>, area: map<Slot, Area>, ref: nat, bytes: Data, cell: nat, frame: Data,
                       dirty: bool, place: Where)

  /** Where the page is: free, mapped only, on one of the lists, or being written. */
  datatype Where = Spare | Plainly | Hot | Cold | Leaving(sent: bool)

  function If(b: bool): set<Page> {
    if b then {0} else {}
  }

  function Machine(x: Snap): State {
    var cached := x.place.Hot? || x.place.Cold? || x.place.Leaving?;
    State(x.pte, x.area, map[0 := x.ref], map[0 := x.bytes], If(x.place.Spare?), If(x.dirty), If(x.place.Hot?),
      if cached then map[0 := 1] else map[], if cached then map[1 := 0] else map[],
      [SWAP_UNUSED, x.cell], [Data([]), x.frame],
      if x.place.Hot? then [0] else [], if x.place.Cold? then [0] else [],
      if x.place.Leaving? then Some(0) else None, x.place.Leaving? && x.place.sent)
  }

  const ALONE := map[PARENT := Private(true)]
  const BOTH := map[PARENT := Private(true), CHILD := Private(true)]

  function Here(w: bool, d: bool): Pte {
    Present(0, w, d, d)
  }

  ghost predicate Goes(x: Snap, st: Step, y: Snap) {
    Enabled(Machine(x), st) && (Core(Machine(x)) ==> Apply(Machine(x), st) == Machine(y))
  }

  lemma GoesOn(first: Snap, steps: seq<Step>, x: Snap, st: Step, y: Snap)
    requires Reaches(Machine(first), steps, Machine(x)) && Inv(Machine(x)) && Goes(x, st, y)
    ensures Reaches(Machine(first), steps + [st], Machine(y)) && Inv(Machine(y))
  {
    ReachStep(Machine(first), steps, Machine(x), st);
  }

  // ---- the fault that forgets

  /** The machine before the k-th step: the page is swapped out, written and freed, read in again by a write fault, stored
      to, and shared with a child that goes away. */
  function Stage(k: nat, z: Data, v: Data): Snap {
    if k == 0 then Snap(map[], map[], 0, z, SWAP_UNUSED, v, false, Spare)
    else if k == 1 then Snap(map[], ALONE, 0, z, SWAP_UNUSED, v, false, Spare)
    else if k == 2 then Snap(map[PARENT := Here(true, false)], ALONE, 1, z, SWAP_UNUSED, v, false, Plainly)
    else if k == 3 then Snap(map[PARENT := Here(true, false)], ALONE, 1, z, 0, v, true, Hot)
    else if k == 4 then Snap(map[PARENT := Swapped(1)], ALONE, 0, z, 1, v, true, Hot)
    else if k == 5 then Snap(map[PARENT := Swapped(1)], ALONE, 0, z, 1, v, true, Cold)
    else if k == 6 then Snap(map[PARENT := Swapped(1)], ALONE, 0, z, 2, v, false, Leaving(false))
    else if k == 7 then Snap(map[PARENT := Swapped(1)], ALONE, 0, z, 2, z, false, Leaving(true))
    else if k == 8 then Snap(map[PARENT := Swapped(1)], ALONE, 0, z, 1, z, false, Cold)
    else if k == 9 then Snap(map[PARENT := Swapped(1)], ALONE, 0, z, 1, z, false, Spare)
    else if k == 10 then Snap(map[PARENT := Swapped(1)], ALONE, 0, z, 1, z, false, Hot)
    else if k == 11 then Snap(map[PARENT := Here(true, false)], ALONE, 1, z, 0, z, false, Hot)
    else if k == 12 then Snap(map[PARENT := Here(true, true)], ALONE, 1, v, 0, z, false, Hot)
    else if k == 13 then Snap(map[PARENT := Here(true, true)], BOTH, 1, v, 0, z, false, Hot)
    else if k == 14 then Snap(map[PARENT := Here(false, true), CHILD := Here(false, false)], BOTH, 2, v, 0, z, false, Hot)
    else Snap(map[PARENT := Here(false, true)], BOTH, 1, v, 0, z, false, Hot)
  }

  /** The k-th step. */
  function StepAt(k: nat, z: Data, v: Data): Step {
    if k == 0 then Mapped(PARENT, Private(true))
    else if k == 1 then Touched(PARENT, 0)
    else if k == 2 then Adopted(0, 1)
    else if k == 3 then Evicted(PARENT)
    else if k == 4 then Cooled(0)
    else if k == 5 then WriteBegun(0)
    else if k == 6 then Transferred(z)
    else if k == 7 then WriteEnded(true)
    else if k == 8 then DroppedClean(0)
    else if k == 9 then Loaded(0, 1)
    else if k == 10 then Restored(PARENT, true)
    else if k == 11 then Stored(PARENT, v)
    else if k == 12 then Mapped(CHILD, Private(true))
    else if k == 13 then Forked(PARENT, CHILD)
    else Cleared(CHILD)
  }

  lemma Mapping(z: Data, v: Data)
    ensures Goes(Stage(0, z, v), StepAt(0, z, v), Stage(1, z, v))
  {
  }

  lemma TouchedState(z: Data, v: Data)
    ensures Fresh(Machine(Stage(1, z, v)), PARENT, 0, true) == Machine(Stage(2, z, v))
  {
  }

  lemma Touching(z: Data, v: Data)
    ensures Goes(Stage(1, z, v), StepAt(1, z, v), Stage(2, z, v))
  {
    TouchedState(z, v);
  }

  lemma Adopting(z: Data, v: Data)
    ensures Goes(Stage(2, z, v), StepAt(2, z, v), Stage(3, z, v))
  {
  }

  lemma EvictedState(z: Data, v: Data)
    ensures Evict(Machine(Stage(3, z, v)), PARENT) == Machine(Stage(4, z, v))
  {
  }

  lemma Evicting(z: Data, v: Data)
    ensures Goes(Stage(3, z, v), StepAt(3, z, v), Stage(4, z, v))
  {
    EvictedState(z, v);
  }

  lemma Cooling(z: Data, v: Data)
    ensures Goes(Stage(4, z, v), StepAt(4, z, v), Stage(5, z, v))
  {
  }

  lemma Pinning(z: Data, v: Data)
    ensures Goes(Stage(5, z, v), StepAt(5, z, v), Stage(6, z, v))
  {
  }

  lemma Transferring(z: Data, v: Data)
    ensures Goes(Stage(6, z, v), StepAt(6, z, v), Stage(7, z, v))
  {
  }

  lemma Ending(z: Data, v: Data)
    ensures Goes(Stage(7, z, v), StepAt(7, z, v), Stage(8, z, v))
  {
  }

  lemma DroppedState(z: Data, v: Data)
    ensures Uncache(Machine(Stage(8, z, v)), 0, false) == Machine(Stage(9, z, v))
  {
  }

  lemma Dropping(z: Data, v: Data)
    ensures Goes(Stage(8, z, v), StepAt(8, z, v), Stage(9, z, v))
  {
    DroppedState(z, v);
  }

  lemma LoadedState(z: Data, v: Data)
    ensures Adopt(Machine(Stage(9, z, v)), 0, 1, true) == Machine(Stage(10, z, v))
  {
  }

  lemma Loading(z: Data, v: Data)
    ensures Goes(Stage(9, z, v), StepAt(9, z, v), Stage(10, z, v))
  {
    LoadedState(z, v);
  }

  lemma RestoredState(z: Data, v: Data)
    ensures Restore(Machine(Stage(10, z, v)), PARENT, true) == Machine(Stage(11, z, v))
  {
  }

  lemma Restoring(z: Data, v: Data)
    ensures Goes(Stage(10, z, v), StepAt(10, z, v), Stage(11, z, v))
  {
    RestoredState(z, v);
  }

  lemma Storing(z: Data, v: Data)
    ensures Goes(Stage(11, z, v), StepAt(11, z, v), Stage(12, z, v))
  {
  }

  lemma MappingChild(z: Data, v: Data)
    ensures Goes(Stage(12, z, v), StepAt(12, z, v), Stage(13, z, v))
  {
  }

  /** The parent without PTE_W, before the child has its entry. */
  function Protected(z: Data, v: Data): Snap {
    Stage(13, z, v).(pte := map[PARENT := Here(false, true)])
  }

  lemma ProtectedState(z: Data, v: Data)
    ensures Protect(Machine(Stage(13, z, v)), PARENT) == Machine(Protected(z, v))
  {
  }

  lemma ChildState(z: Data, v: Data)
    ensures SetPte(Machine(Protected(z, v)), CHILD, Some(Here(false, false))) == Machine(Stage(14, z, v))
  {
  }

  lemma ForkedState(z: Data, v: Data)
    ensures Fork(Machine(Stage(13, z, v)), PARENT, CHILD) == Machine(Stage(14, z, v))
  {
    ProtectedState(z, v);
    ChildState(z, v);
  }

  lemma Forking(z: Data, v: Data)
    ensures Goes(Stage(13, z, v), StepAt(13, z, v), Stage(14, z, v))
  {
    ForkedState(z, v);
  }

  lemma ClearedState(z: Data, v: Data)
    ensures Drop(Machine(Stage(14, z, v)), CHILD) == Machine(Stage(15, z, v))
  {
  }

  lemma Clearing(z: Data, v: Data)
    ensures Goes(Stage(14, z, v), StepAt(14, z, v), Stage(15, z, v))
  {
    ClearedState(z, v);
  }

  lemma StageGoes(k: nat, z: Data, v: Data)
    requires k < 15
    ensures Goes(Stage(k, z, v), StepAt(k, z, v), Stage(k + 1, z, v))
  {
    if k < 8 {
      EarlyGoes(k, z, v);
    } else {
      LateGoes(k, z, v);
    }
  }

  lemma EarlyGoes(k: nat, z: Data, v: Data)
    requires k < 8
    ensures Goes(Stage(k, z, v), StepAt(k, z, v), Stage(k + 1, z, v))
  {
    match k
    case 0 => Mapping(z, v);
    case 1 => Touching(z, v);
    case 2 => Adopting(z, v);
    case 3 => Evicting(z, v);
    case 4 => Cooling(z, v);
    case 5 => Pinning(z, v);
    case 6 => Transferring(z, v);
    case _ => Ending(z, v);
  }

  lemma LateGoes(k: nat, z: Data, v: Data)
    requires 8 <= k < 15
    ensures Goes(Stage(k, z, v), StepAt(k, z, v), Stage(k + 1, z, v))
  {
    match k
    case 8 => Dropping(z, v);
    case 9 => Loading(z, v);
    case 10 => Restoring(z, v);
    case 11 => Storing(z, v);
    case 12 => MappingChild(z, v);
    case 13 => Forking(z, v);
    case _ => Clearing(z, v);
  }

  lemma {:induction false} StageReached(k: nat, z: Data, v: Data) returns (steps: seq<Step>)
    requires k <= 15
    ensures Inv(Machine(Stage(k, z, v))) && Reaches(Machine(Stage(0, z, v)), steps, Machine(Stage(k, z, v)))
  {
    if k == 0 {
      BootInv(Machine(Stage(0, z, v)));
      steps := [];
    } else {
      steps := StageReached(k - 1, z, v);
      StageGoes(k - 1, z, v);
      GoesOn(Stage(0, z, v), steps, Stage(k - 1, z, v), StepAt(k - 1, z, v), Stage(k, z, v));
      steps := steps + [StepAt(k - 1, z, v)];
    }
  }

  /** The fault that forgets can happen, by steps that the kernel makes in this order. */
  lemma ForgettingIsReachable(z: Data, v: Data) returns (steps: seq<Step>, s: State, t: State)
    requires v != z
    ensures Booted(s) && Reaches(s, steps, t) && Inv(t)
    ensures ReusePre(t, PARENT) && Forgets(t, PARENT) && t.laundering == None && !Inv(Reuse(t, PARENT))
  {
    s, t := Machine(Stage(0, z, v)), Machine(Stage(15, z, v));
    steps := StageReached(15, z, v);
    ReuseExact(t, PARENT);
  }

  // ---- the fault that is not resolved

  /** The machine before the k-th step: a page is shared with a child and swapped out of both. */
  function Scene(k: nat, z: Data): Snap {
    if k == 0 then Snap(map[], map[], 0, z, SWAP_UNUSED, z, false, Spare)
    else if k == 1 then Snap(map[], ALONE, 0, z, SWAP_UNUSED, z, false, Spare)
    else if k == 2 then Snap(map[PARENT := Here(true, false)], ALONE, 1, z, SWAP_UNUSED, z, false, Plainly)
    else if k == 3 then Snap(map[PARENT := Here(true, false)], BOTH, 1, z, SWAP_UNUSED, z, false, Plainly)
    else if k == 4 then Snap(map[PARENT := Here(false, false), CHILD := Here(false, false)], BOTH, 2, z, SWAP_UNUSED, z, false, Plainly)
    else if k == 5 then Snap(map[PARENT := Here(false, false), CHILD := Here(false, false)], BOTH, 2, z, 0, z, true, Hot)
    else if k == 6 then Snap(map[PARENT := Swapped(1), CHILD := Here(false, false)], BOTH, 1, z, 1, z, true, Hot)
    else Snap(map[PARENT := Swapped(1), CHILD := Swapped(1)], BOTH, 0, z, 2, z, true, Hot)
  }

  /** The k-th step. */
  function Act(k: nat): Step {
    if k == 0 then Mapped(PARENT, Private(true))
    else if k == 1 then Touched(PARENT, 0)
    else if k == 2 then Mapped(CHILD, Private(true))
    else if k == 3 then Forked(PARENT, CHILD)
    else if k == 4 then Adopted(0, 1)
    else if k == 5 then Evicted(PARENT)
    else Evicted(CHILD)
  }

  lemma ActMap(z: Data)
    ensures Goes(Scene(0, z), Act(0), Scene(1, z)) && Goes(Scene(2, z), Act(2), Scene(3, z))
  {
  }

  lemma ActTouch(z: Data)
    ensures Goes(Scene(1, z), Act(1), Scene(2, z))
  {
    TouchedState(z, z);
  }

  /** The parent without PTE_W, before the child has its entry. */
  function Guarded(z: Data): Snap {
    Scene(3, z).(pte := map[PARENT := Here(false, false)])
  }

  lemma GuardedState(z: Data)
    ensures Protect(Machine(Scene(3, z)), PARENT) == Machine(Guarded(z))
  {
  }

  lemma TwinState(z: Data)
    ensures SetPte(Machine(Guarded(z)), CHILD, Some(Here(false, false))) == Machine(Scene(4, z))
  {
  }

  lemma ActFork(z: Data)
    ensures Goes(Scene(3, z), Act(3), Scene(4, z))
  {
    GuardedState(z);
    TwinState(z);
    assert Fork(Machine(Scene(3, z)), PARENT, CHILD) == Machine(Scene(4, z));
  }

  lemma ActAdopt(z: Data)
    ensures Goes(Scene(4, z), Act(4), Scene(5, z))
  {
  }

  /** The page goes out of one entry that has not been written through. */
  lemma OneOut(x: Snap, sl: Slot)
    requires x.place.Hot? && sl in x.pte && x.pte[sl] == Here(false, false) && x.ref > 0 && x.cell < MAX_SWAP_REF
    ensures Evict(Machine(x), sl) == Machine(x.(pte := x.pte[sl := Swapped(1)], ref := x.ref - 1, cell := x.cell + 1))
  {
  }

  lemma ParentOut(z: Data)
    ensures Goes(Scene(5, z), Act(5), Scene(6, z))
  {
    OneOut(Scene(5, z), PARENT);
    assert Scene(5, z).pte[PARENT := Swapped(1)] == Scene(6, z).pte;
  }

  lemma ChildOut(z: Data)
    ensures Goes(Scene(6, z), Act(6), Scene(7, z))
  {
    OneOut(Scene(6, z), CHILD);
    assert Scene(6, z).pte[CHILD := Swapped(1)] == Scene(7, z).pte;
  }

  lemma SceneGoes(k: nat, z: Data)
    requires k < 7
    ensures Goes(Scene(k, z), Act(k), Scene(k + 1, z))
  {
    match k
    case 1 => ActTouch(z);
    case 3 => ActFork(z);
    case 4 => ActAdopt(z);
    case 5 => ParentOut(z);
    case 6 => ChildOut(z);
    case _ => ActMap(z);
  }

  lemma {:induction false} SceneReached(k: nat, z: Data) returns (steps: seq<Step>)
    requires k <= 7
    ensures Inv(Machine(Scene(k, z))) && Reaches(Machine(Scene(0, z)), steps, Machine(Scene(k, z)))
  {
    if k == 0 {
      BootInv(Machine(Scene(0, z)));
      steps := [];
    } else {
      steps := SceneReached(k - 1, z);
      SceneGoes(k - 1, z);
      GoesOn(Scene(0, z), steps, Scene(k - 1, z), Act(k - 1), Scene(k, z));
      steps := steps + [Act(k - 1)];
    }
  }

  /** The fault that is answered with 0 and not resolved can happen: no page is free, and the cached page has a second name. */
  lemma StallIsReachable(z: Data) returns (steps: seq<Step>, s: State, t: State)
    ensures Booted(s) && Reaches(s, steps, t) && Inv(t) && t.free == {}
    ensures PARENT in t.area && t.area[PARENT].write && Stalls(t, PARENT, true, None, None, false) && Fetched(t, PARENT, true, None, None, false) == Ok
  {
    s, t := Machine(Scene(0, z)), Machine(Scene(7, z));
    steps := SceneReached(7, z);
  }
}
