/** semaphore.c and wait.c: semaphores that hand a released unit straight to the first waiter.
    Every section that runs with interrupts off is one step, so a run is any interleaving of them. */
module Semaphores {
  import opened Lists

  type Pid = nat
  type Sem = nat
  type Word = nat

  const WT_INTERRUPTED: Word := 0x8000_0000
  const WT_KSEM: Word := 0x100
  const WT_USEM: Word := 0x8000_0101

  /** The wait node on the stack of a process inside __down. */
  datatype Wait = Wait(sem: Sem, flags: Word)

  /** waitState is 0 while the process is runnable. */
  datatype Proc = Proc(waitState: Word, node: Option<Wait>)

  /** why is the wait state its users pass: WT_KSEM for kernel semaphores, WT_USEM for user ones. */
  datatype Semaphore = Semaphore(why: Word, value: int, queue: seq<Pid>)

  datatype State = State(sems: map<Sem, Semaphore>, procs: map<Pid, Proc>)

  // The invariant.

  ghost predicate SemOk(s: State, x: Sem)
    requires x in s.sems
  {
    var m := s.sems[x];
    && m.value >= 0 && (m.value > 0 ==> m.queue == [])
    && (m.why == WT_KSEM || m.why == WT_USEM) && Distinct(m.queue)
  }

  /** A queued process sleeps on the semaphore, unless it waits on a user semaphore and was interrupted. */
  ghost predicate QueueOk(s: State, x: Sem)
    requires x in s.sems
  {
    forall p :: p in s.sems[x].queue ==>
      && p in s.procs && s.procs[p].node == Some(Wait(x, WT_INTERRUPTED))
      && (s.procs[p].waitState == s.sems[x].why || (s.sems[x].why == WT_USEM && s.procs[p].waitState == 0))
  }

  /** A process inside __down is queued, or was handed its unit. */
  ghost predicate ProcOk(s: State, p: Pid)
    requires p in s.procs
  {
    match s.procs[p].node
    case None => s.procs[p].waitState != WT_KSEM && s.procs[p].waitState != WT_USEM
    case Some(w) =>
      && w.sem in s.sems
      && (p in s.sems[w.sem].queue || (w.flags == s.sems[w.sem].why && s.procs[p].waitState == 0))
  }

  ghost predicate Ok(s: State) {
    && (forall x :: x in s.sems ==> SemOk(s, x) && QueueOk(s, x))
    && forall p :: p in s.procs ==> ProcOk(s, p)
  }

  // The steps.

  /** __up: a waiter gets the unit, and only without one does the value grow. */
  function Up(s: State, x: Sem): State
    requires x in s.sems && forall q :: q in s.sems[x].queue ==> q in s.procs
  {
    var m := s.sems[x];
    if m.queue == [] then
      s.(sems := s.sems[x := m.(value := m.value + 1)])
    else
      var q := m.queue[0];
      s.(sems := s.sems[x := m.(queue := m.queue[1..])], procs := s.procs[q := Proc(0, Some(Wait(x, m.why)))])
  }

  /** try_down, and __down when a unit is there. */
  function Take(s: State, x: Sem): State
    requires x in s.sems
  {
    s.(sems := s.sems[x := s.sems[x].(value := s.sems[x].value - 1)])
  }

  /** __down when none is there, up to schedule. */
  function Block(s: State, p: Pid, x: Sem): State
    requires x in s.sems
  {
    s.(sems := s.sems[x := s.sems[x].(queue := s.sems[x].queue + [p])],
       procs := s.procs[p := Proc(s.sems[x].why, Some(Wait(x, WT_INTERRUPTED)))])
  }

  /** __down after schedule: leave the queue if still in it. */
  function Resume(s: State, p: Pid): State
    requires p in s.procs && s.procs[p].node.Some? && s.procs[p].node.value.sem in s.sems
  {
    var x := s.procs[p].node.value.sem;
    s.(sems := s.sems[x := s.sems[x].(queue := Without(s.sems[x].queue, p))], procs := s.procs[p := Proc(0, None)])
  }

  /** What that __down returns. */
  function Outcome(s: State, p: Pid): Word
    requires p in s.procs && s.procs[p].node.Some? && s.procs[p].node.value.sem in s.sems
  {
    var w := s.procs[p].node.value;
    if w.flags != s.sems[w.sem].why then w.flags else 0
  }

  /** The process sleeps for another reason, or wakes from anything but a kernel semaphore. */
  function WithWait(s: State, p: Pid, w: Word): State
    requires p in s.procs
  {
    s.(procs := s.procs[p := s.procs[p].(waitState := w)])
  }

  datatype Step =
    | Upped(p: Pid, x: Sem)
    | Took(p: Pid, x: Sem)
    | Blocked(p: Pid, x: Sem)
    | Resumed(p: Pid)
    | Slept(p: Pid, w: Word)
    | Woken(p: Pid)

  ghost predicate Free(s: State, p: Pid) {
    p in s.procs && s.procs[p] == Proc(0, None)
  }

  /** The assertion in __up. */
  ghost predicate UpAsserts(s: State, x: Sem)
    requires x in s.sems
  {
    s.sems[x].queue != [] ==>
      s.sems[x].queue[0] in s.procs && s.procs[s.sems[x].queue[0]].waitState == s.sems[x].why
  }

  /** When a step can happen. Every waker outside semaphore.c looks at wait_state first, and none looks for WT_KSEM:
      a kill or a timer wants the WT_INTERRUPTED bit, the others one state of their own. */
  ghost predicate Can(s: State, step: Step) {
    match step
    case Upped(p, x) =>
      x in s.sems && UpAsserts(s, x) && forall q :: q in s.sems[x].queue ==> q in s.procs
    case Took(p, x) => Free(s, p) && x in s.sems && s.sems[x].value > 0
    case Blocked(p, x) => Free(s, p) && x in s.sems && s.sems[x].value <= 0
    case Resumed(p) =>
      && p in s.procs && s.procs[p].node.Some? && s.procs[p].node.value.sem in s.sems
      && s.procs[p].waitState == 0
    case Slept(p, w) => Free(s, p) && w != 0 && w != WT_KSEM && w != WT_USEM
    case Woken(p) => p in s.procs && s.procs[p].waitState != 0 && s.procs[p].waitState != WT_KSEM
  }

  ghost function After(s: State, step: Step): State
    requires Can(s, step)
  {
    match step
    case Upped(p, x) => Up(s, x)
    case Took(p, x) => Take(s, x)
    case Blocked(p, x) => Block(s, p, x)
    case Resumed(p) => Resume(s, p)
    case Slept(p, w) => WithWait(s, p, w)
    case Woken(p) => WithWait(s, p, 0)
  }

  // Every step keeps the invariant.

  lemma UpKeeps(s: State, x: Sem)
    requires Ok(s) && x in s.sems
    ensures QueueOk(s, x) && Ok(Up(s, x))
  {
    assert SemOk(s, x) && QueueOk(s, x);
    var t := Up(s, x);
    forall y | y in t.sems
      ensures SemOk(t, y) && QueueOk(t, y)
    {
      UpSemOk(s, x, y);
    }
    forall q | q in t.procs
      ensures ProcOk(t, q)
    {
      UpProc(s, x, q);
    }
  }

  lemma UpSemOk(s: State, x: Sem, y: Sem)
    requires Ok(s) && x in s.sems && y in s.sems && QueueOk(s, x)
    ensures SemOk(Up(s, x), y) && QueueOk(Up(s, x), y)
  {
    assert SemOk(s, y) && QueueOk(s, y);
  }

  lemma UpProc(s: State, x: Sem, q: Pid)
    requires Ok(s) && x in s.sems && QueueOk(s, x) && q in Up(s, x).procs
    ensures ProcOk(Up(s, x), q)
  {
    assert ProcOk(s, q);
  }

  lemma TakeKeeps(s: State, x: Sem)
    requires Ok(s) && x in s.sems && s.sems[x].value > 0
    ensures Ok(Take(s, x))
  {
    var t := Take(s, x);
    forall y | y in t.sems
      ensures SemOk(t, y) && QueueOk(t, y)
    {
      assert SemOk(s, y) && QueueOk(s, y);
    }
    forall q | q in t.procs
      ensures ProcOk(t, q)
    {
      assert ProcOk(s, q);
    }
  }

  lemma NotQueued(s: State, p: Pid, x: Sem)
    requires Ok(s) && p in s.procs && s.procs[p].node.None? && x in s.sems
    ensures p !in s.sems[x].queue
  {
    assert QueueOk(s, x);
  }

  lemma BlockKeeps(s: State, p: Pid, x: Sem)
    requires Ok(s) && Free(s, p) && x in s.sems && s.sems[x].value <= 0
    ensures Ok(Block(s, p, x))
  {
    var t := Block(s, p, x);
    forall y | y in t.sems
      ensures SemOk(t, y) && QueueOk(t, y)
    {
      assert SemOk(s, y) && QueueOk(s, y);
      NotQueued(s, p, y);
    }
    forall q | q in t.procs
      ensures ProcOk(t, q)
    {
      assert q in s.procs ==> ProcOk(s, q);
    }
  }

  lemma ResumeKeeps(s: State, p: Pid)
    requires Ok(s) && Can(s, Resumed(p))
    ensures ProcOk(s, p) && Ok(Resume(s, p))
  {
    assert ProcOk(s, p);
    var t := Resume(s, p);
    forall y | y in t.sems
      ensures SemOk(t, y) && QueueOk(t, y)
    {
      ResumeSem(s, p, y);
    }
    forall q | q in t.procs
      ensures ProcOk(t, q)
    {
      ResumeProc(s, p, q);
    }
  }

  lemma ResumeSem(s: State, p: Pid, y: Sem)
    requires Ok(s) && Can(s, Resumed(p)) && y in s.sems
    ensures SemOk(Resume(s, p), y) && QueueOk(Resume(s, p), y)
  {
    var queue := s.sems[y].queue;
    assert SemOk(s, y) && QueueOk(s, y);
    WithoutDistinct(queue, p);
    forall q: Pid
      ensures q in Without(queue, p) <==> q in queue && q != p
    {
      WithoutMembers(queue, p, q);
    }
  }

  lemma ResumeProc(s: State, p: Pid, q: Pid)
    requires Ok(s) && Can(s, Resumed(p)) && q in s.procs
    ensures ProcOk(Resume(s, p), q)
  {
    assert ProcOk(s, q);
    var x := s.procs[p].node.value.sem;
    assert SemOk(s, x);
    WithoutMembers(s.sems[x].queue, p, q);
  }

  lemma WaitKeeps(s: State, p: Pid, w: Word)
    requires Ok(s) && p in s.procs
    requires (w == 0 && s.procs[p].waitState != WT_KSEM) || (Free(s, p) && w != WT_KSEM && w != WT_USEM)
    ensures Ok(WithWait(s, p, w))
  {
    var t := WithWait(s, p, w);
    forall y | y in t.sems
      ensures SemOk(t, y) && QueueOk(t, y)
    {
      assert SemOk(s, y) && QueueOk(s, y);
    }
    forall q | q in t.procs
      ensures ProcOk(t, q)
    {
      assert ProcOk(s, q);
    }
  }

  lemma StepKeeps(s: State, step: Step)
    requires Ok(s) && Can(s, step)
    ensures Ok(After(s, step))
  {
    match step
    case Upped(p, x) => UpKeeps(s, x);
    case Took(p, x) => TakeKeeps(s, x);
    case Blocked(p, x) => BlockKeeps(s, p, x);
    case Resumed(p) => ResumeKeeps(s, p);
    case Slept(p, w) => WaitKeeps(s, p, w);
    case Woken(p) => WaitKeeps(s, p, 0);
  }

  // What the callers rely on.

  /** down on a kernel semaphore always gets 0; on a user semaphore, 0 exactly when the unit was handed over. */
  lemma DownSucceeds(s: State, p: Pid)
    requires Ok(s) && Can(s, Resumed(p))
    ensures ProcOk(s, p)
    ensures var x := s.procs[p].node.value.sem;
      && (s.sems[x].why == WT_KSEM ==> Outcome(s, p) == 0)
      && (Outcome(s, p) == 0 || Outcome(s, p) == WT_INTERRUPTED)
      && (Outcome(s, p) == 0 <==> p !in s.sems[x].queue)
  {
    assert ProcOk(s, p);
    assert QueueOk(s, s.procs[p].node.value.sem) && SemOk(s, s.procs[p].node.value.sem);
  }

  /** The assertion in __up holds of every kernel semaphore. Of a user semaphore it holds
      exactly when the first waiter was not interrupted while it queued. */
  lemma UpAssertion(s: State, x: Sem)
    requires Ok(s) && x in s.sems
    ensures s.sems[x].why == WT_KSEM ==> UpAsserts(s, x)
    ensures s.sems[x].queue != [] ==> s.sems[x].queue[0] in s.procs
    ensures UpAsserts(s, x) <==> s.sems[x].queue == [] || s.procs[s.sems[x].queue[0]].waitState != 0
  {
    assert QueueOk(s, x) && SemOk(s, x);
  }

  /** It does fail: a process waits on a user semaphore and is killed, and another ups before the first runs. */
  lemma InterruptedWaiter(s: State, p: Pid, x: Sem)
    requires Ok(s) && Free(s, p) && x in s.sems && s.sems[x] == Semaphore(WT_USEM, 0, [])
    ensures Can(s, Blocked(p, x)) && Ok(After(s, Blocked(p, x)))
    ensures Can(After(s, Blocked(p, x)), Woken(p))
    ensures !UpAsserts(After(After(s, Blocked(p, x)), Woken(p)), x)
  {
    StepKeeps(s, Blocked(p, x));
    StepKeeps(After(s, Blocked(p, x)), Woken(p));
  }

  // Whole runs.

  ghost predicate Run(states: seq<State>, steps: seq<Step>) {
    && |states| == |steps| + 1
    && forall i :: 0 <= i < |steps| ==>
         Can(states[i], steps[i]) && states[i + 1] == After(states[i], steps[i])
  }

  lemma RunStep(states: seq<State>, steps: seq<Step>)
    requires Run(states, steps) && steps != []
    ensures Run(states[..|steps|], steps[..|steps| - 1])
    ensures var n := |steps| - 1;
      Can(states[n], steps[n]) && states[n + 1] == After(states[n], steps[n])
  {
    var n := |steps| - 1;
    forall i | 0 <= i < n
      ensures Can(states[i], steps[i]) && states[..n + 1][i + 1] == After(states[i], steps[i])
    {
      assert states[..n + 1][i + 1] == states[i + 1];
    }
  }

  /** Over every interleaving: no value is negative, a positive value means no waiters, and a process inside __down is queued
      or was handed its unit. */
  lemma {:induction false} RunKeeps(states: seq<State>, steps: seq<Step>)
    requires Run(states, steps) && Ok(states[0])
    ensures Ok(states[|steps|])
    decreases |steps|
  {
    if steps != [] {
      RunStep(states, steps);
      var n := |steps| - 1;
      assert states[..n + 1][0] == states[0] && states[..n + 1][n] == states[n];
      RunKeeps(states[..n + 1], steps[..n]);
      StepKeeps(states[n], steps[n]);
    }
  }

  // What happened to a semaphore, told by the steps of a run alone.

  /** The step gives a unit back, and to whom it goes on if somebody waits. */
  ghost predicate Ups(step: Step, x: Sem) {
    step.Upped? && step.x == x
  }

  ghost predicate Hands(s: State, step: Step, x: Sem) {
    Ups(step, x) && x in s.sems && s.sems[x].queue != []
  }

  ghost predicate Takes(step: Step, x: Sem) {
    step.Took? && step.x == x
  }

  ghost function UpCount(steps: seq<Step>, x: Sem): nat {
    if steps == [] then 0
    else UpCount(steps[..|steps| - 1], x) + if Ups(steps[|steps| - 1], x) then 1 else 0
  }

  /** Units granted: taken, or handed over to a waiter. */
  ghost function GrantCount(states: seq<State>, steps: seq<Step>, x: Sem): nat
    requires |states| == |steps| + 1
  {
    if steps == [] then 0
    else
      var n := |steps| - 1;
      GrantCount(states[..n + 1], steps[..n], x) + if Takes(steps[n], x) || Hands(states[n], steps[n], x) then 1 else 0
  }

  /** Who blocked, in order. */
  ghost function Arrivals(steps: seq<Step>, x: Sem): seq<Pid> {
    if steps == [] then []
    else
      var n := |steps| - 1;
      Arrivals(steps[..n], x) + if steps[n].Blocked? && steps[n].x == x then [steps[n].p] else []
  }

  /** Who was handed a unit, in order. */
  ghost function Handoffs(states: seq<State>, steps: seq<Step>, x: Sem): seq<Pid>
    requires |states| == |steps| + 1
  {
    if steps == [] then []
    else
      var n := |steps| - 1;
      Handoffs(states[..n + 1], steps[..n], x) + if Hands(states[n], steps[n], x) then [states[n].sems[x].queue[0]] else []
  }

  /** Who has a unit and has not given it back. */
  ghost function Holders(states: seq<State>, steps: seq<Step>, x: Sem): multiset<Pid>
    requires |states| == |steps| + 1
  {
    if steps == [] then multiset{}
    else
      var n := |steps| - 1;
      var h := Holders(states[..n + 1], steps[..n], x);
      if Takes(steps[n], x) then h + multiset{steps[n].p}
      else if Hands(states[n], steps[n], x) then h - multiset{steps[n].p} + multiset{states[n].sems[x].queue[0]}
      else if Ups(steps[n], x) then h - multiset{steps[n].p}
      else h
  }

  /** What one step does to the value and the queue. */
  lemma StepMoves(s: State, step: Step, x: Sem)
    requires Ok(s) && Can(s, step) && x in s.sems
    ensures var t := After(s, step);
      && x in t.sems && t.sems[x].why == s.sems[x].why
      && t.sems[x].value == s.sems[x].value + (if Ups(step, x) && !Hands(s, step, x) then 1 else 0) - (if Takes(step, x) then 1 else 0)
      && (s.sems[x].why == WT_KSEM ==>
            (if Hands(s, step, x) then [s.sems[x].queue[0]] else []) + t.sems[x].queue
            == s.sems[x].queue + if step.Blocked? && step.x == x then [step.p] else [])
  {
    assert SemOk(s, x);
    match step
    case Upped(p, y) =>
      if y == x && s.sems[x].queue != [] {
        assert s.sems[x].queue == [s.sems[x].queue[0]] + s.sems[x].queue[1..];
      }
    case Resumed(p) =>
      DownSucceeds(s, p);
      if s.procs[p].node.value.sem == x && s.sems[x].why == WT_KSEM {
        WithoutAbsent(s.sems[x].queue, p);
      }
    case Took(p, y) =>
    case Blocked(p, y) =>
    case Slept(p, w) =>
    case Woken(p) =>
  }

  /** Over every interleaving, value plus grants is the starting value plus the ups. */
  lemma {:induction false} UnitsBalance(states: seq<State>, steps: seq<Step>, x: Sem)
    requires Run(states, steps) && Ok(states[0]) && x in states[0].sems
    ensures x in states[|steps|].sems && states[|steps|].sems[x].why == states[0].sems[x].why
    ensures states[|steps|].sems[x].value + GrantCount(states, steps, x) == states[0].sems[x].value + UpCount(steps, x)
    decreases |steps|
  {
    if steps != [] {
      RunStep(states, steps);
      var n := |steps| - 1;
      assert states[..n + 1][0] == states[0] && states[..n + 1][n] == states[n];
      RunKeeps(states[..n + 1], steps[..n]);
      UnitsBalance(states[..n + 1], steps[..n], x);
      StepMoves(states[n], steps[n], x);
    }
  }

  /** Kernel semaphores are fair: those handed a unit, then those still queued, are those who came, in the order they came. */
  lemma {:induction false} Fifo(states: seq<State>, steps: seq<Step>, x: Sem)
    requires Run(states, steps) && Ok(states[0]) && x in states[0].sems && states[0].sems[x].why == WT_KSEM
    ensures x in states[|steps|].sems && states[|steps|].sems[x].why == WT_KSEM
    ensures Handoffs(states, steps, x) + states[|steps|].sems[x].queue == states[0].sems[x].queue + Arrivals(steps, x)
    decreases |steps|
  {
    if steps != [] {
      RunStep(states, steps);
      var n := |steps| - 1;
      assert states[..n + 1][0] == states[0] && states[..n + 1][n] == states[n];
      RunKeeps(states[..n + 1], steps[..n]);
      Fifo(states[..n + 1], steps[..n], x);
      StepMoves(states[n], steps[n], x);
      var head := if Hands(states[n], steps[n], x) then [states[n].sems[x].queue[0]] else [];
      var come := if steps[n].Blocked? && steps[n].x == x then [steps[n].p] else [];
      Joined(Handoffs(states[..n + 1], steps[..n], x), head, states[n + 1].sems[x].queue, states[n].sems[x].queue,
             states[0].sems[x].queue, Arrivals(steps[..n], x), come);
    }
  }

  lemma Joined(done: seq<Pid>, head: seq<Pid>, rest: seq<Pid>, queue: seq<Pid>, first: seq<Pid>, came: seq<Pid>, more: seq<Pid>)
    requires head + rest == queue + more && done + queue == first + came
    ensures (done + head) + rest == first + (came + more)
  {
    assert (done + head) + rest == done + (head + rest);
    assert done + (queue + more) == (done + queue) + more;
  }

  /** x is used as a lock: only a process that holds a unit gives one back. */
  ghost predicate Locking(states: seq<State>, steps: seq<Step>, x: Sem)
    requires |states| == |steps| + 1
  {
    forall i :: 0 <= i < |steps| && Ups(steps[i], x) ==> steps[i].p in Holders(states[..i + 1], steps[..i], x)
  }

  /** The units of a semaphore used as a lock are with it or with their holders: never more holders than units. */
  lemma {:induction false} HoldersBalance(states: seq<State>, steps: seq<Step>, x: Sem)
    requires Run(states, steps) && Ok(states[0]) && x in states[0].sems && Locking(states, steps, x)
    ensures x in states[|steps|].sems
    ensures states[|steps|].sems[x].value + |Holders(states, steps, x)| == states[0].sems[x].value
    ensures |Holders(states, steps, x)| <= states[0].sems[x].value
    decreases |steps|
  {
    if steps != [] {
      RunStep(states, steps);
      var n := |steps| - 1;
      assert states[..n + 1][0] == states[0] && states[..n + 1][n] == states[n];
      RunKeeps(states[..n + 1], steps[..n]);
      LockingBefore(states, steps, x);
      HoldersBalance(states[..n + 1], steps[..n], x);
      StepMoves(states[n], steps[n], x);
      assert Ups(steps[n], x) ==> steps[n].p in Holders(states[..n + 1], steps[..n], x);
    }
    RunKeeps(states, steps);
    assert x in states[|steps|].sems ==> SemOk(states[|steps|], x);
  }

  lemma LockingBefore(states: seq<State>, steps: seq<Step>, x: Sem)
    requires |states| == |steps| + 1 && steps != [] && Locking(states, steps, x)
    ensures Locking(states[..|steps|], steps[..|steps| - 1], x)
  {
    var n := |steps| - 1;
    forall i | 0 <= i < n && Ups(steps[..n][i], x)
      ensures steps[..n][i].p in Holders(states[..n + 1][..i + 1], steps[..n][..i], x)
    {
      assert states[..n + 1][..i + 1] == states[..i + 1] && steps[..n][..i] == steps[..i];
    }
  }

  /** A semaphore that starts at 1 and is used as a lock never has two holders. */
  lemma AtMostOneHolder(states: seq<State>, steps: seq<Step>, x: Sem, p: Pid, q: Pid)
    requires Run(states, steps) && Ok(states[0]) && x in states[0].sems && states[0].sems[x].value == 1 && Locking(states, steps, x)
    ensures |Holders(states, steps, x)| <= 1
    ensures p in Holders(states, steps, x) && q in Holders(states, steps, x) ==> p == q
  {
    HoldersBalance(states, steps, x);
    var h := Holders(states, steps, x);
    if p in h && q in h {
      AtLeastBoth(h, p, q);
    }
  }

  lemma AtLeastBoth(h: multiset<Pid>, p: Pid, q: Pid)
    requires p in h && q in h
    ensures p != q ==> |h| >= 2
  {
    if p != q {
      assert h == multiset{p, q} + (h - multiset{p, q});
    }
  }

  class Table {
    var sems: map<Sem, Semaphore>
    var procs: map<Pid, Proc>

    ghost function St(): State
      reads this
    {
      State(sems, procs)
    }

    ghost predicate Valid()
      reads this
    {
      Ok(St())
    }

    constructor (pids: set<Pid>)
      ensures Valid() && sems == map[] && procs == map p | p in pids :: Proc(0, None)
    {
      sems := map[];
      procs := map p | p in pids :: Proc(0, None);
    }

    /** sem_init. */
    method Init(x: Sem, why: Word, value: nat)
      requires Valid() && x !in sems && (why == WT_KSEM || why == WT_USEM)
      modifies this
      ensures Valid() && sems == old(sems)[x := Semaphore(why, value, [])] && procs == old(procs)
    {
      ghost var s := St();
      sems := sems[x := Semaphore(why, value, [])];
      forall y | y in sems
        ensures SemOk(St(), y) && QueueOk(St(), y)
      {
        assert y != x ==> SemOk(s, y) && QueueOk(s, y);
      }
      forall p | p in procs
        ensures ProcOk(St(), p)
      {
        assert ProcOk(s, p);
      }
    }

    /** __up; its assertion is the second requirement, which kernel semaphores always meet. */
    method UpSem(x: Sem)
      requires Valid() && x in sems && (sems[x].why == WT_KSEM || UpAsserts(St(), x))
      modifies this
      ensures Valid() && old(QueueOk(St(), x)) && St() == Up(old(St()), x)
      ensures var m := old(sems)[x];
        if m.queue == [] then sems == old(sems)[x := Semaphore(m.why, m.value + 1, [])] && procs == old(procs)
        else
          && sems == old(sems)[x := Semaphore(m.why, m.value, m.queue[1..])]
          && procs == old(procs)[m.queue[0] := Proc(0, Some(Wait(x, m.why)))]
    {
      UpAssertion(St(), x);
      if sems[x].queue == [] {
        AddUnit(x);
      } else {
        assert procs[sems[x].queue[0]].waitState == sems[x].why;
        WakeupWait(x);
      }
    }

    method AddUnit(x: Sem)
      requires Valid() && x in sems && sems[x].queue == []
      modifies this`sems
      ensures Valid() && old(QueueOk(St(), x)) && St() == Up(old(St()), x)
      ensures sems == old(sems)[x := Semaphore(old(sems)[x].why, old(sems)[x].value + 1, [])]
    {
      UpKeeps(St(), x);
      sems := sems[x := sems[x].(value := sems[x].value + 1)];
    }

    /** wakeup_wait on the first waiter. */
    method WakeupWait(x: Sem)
      requires Valid() && x in sems && sems[x].queue != []
      modifies this
      ensures Valid() && old(QueueOk(St(), x)) && St() == Up(old(St()), x)
      ensures var m := old(sems)[x];
        && sems == old(sems)[x := Semaphore(m.why, m.value, m.queue[1..])]
        && procs == old(procs)[m.queue[0] := Proc(0, Some(Wait(x, m.why)))]
    {
      UpKeeps(St(), x);
      var q := sems[x].queue[0];
      sems := sems[x := sems[x].(queue := sems[x].queue[1..])];
      procs := procs[q := Proc(0, Some(Wait(x, sems[x].why)))];
    }

    /** __down up to schedule. */
    method DownStart(p: Pid, x: Sem) returns (granted: bool)
      requires Valid() && Free(St(), p) && x in sems
      modifies this
      ensures Valid() && (granted <==> old(sems)[x].value > 0)
      ensures St() == if granted then Take(old(St()), x) else Block(old(St()), p, x)
      ensures var m := old(sems)[x];
        if granted then sems == old(sems)[x := Semaphore(m.why, m.value - 1, m.queue)] && procs == old(procs)
        else
          && sems == old(sems)[x := Semaphore(m.why, m.value, m.queue + [p])]
          && procs == old(procs)[p := Proc(m.why, Some(Wait(x, WT_INTERRUPTED)))]
    {
      granted := TryDown(x);
      if !granted {
        BlockKeeps(St(), p, x);
        procs := procs[p := Proc(sems[x].why, Some(Wait(x, WT_INTERRUPTED)))];
        sems := sems[x := sems[x].(queue := sems[x].queue + [p])];
      }
    }

    /** __down after schedule; the assertion in down is that a kernel semaphore gives 0. */
    method DownFinish(p: Pid) returns (flags: Word)
      requires Valid() && Can(St(), Resumed(p))
      modifies this
      ensures Valid() && old(ProcOk(St(), p)) && St() == Resume(old(St()), p)
      ensures procs == old(procs)[p := Proc(0, None)]
      ensures var x := old(procs[p].node.value.sem);
        sems == old(sems)[x := Semaphore(old(sems[x].why), old(sems[x].value), sems[x].queue)] &&
        p !in sems[x].queue && forall q :: q != p ==> (q in sems[x].queue <==> q in old(sems[x].queue))
      ensures old(sems[procs[p].node.value.sem].why) == WT_KSEM ==> flags == 0
      ensures flags == 0 || flags == WT_INTERRUPTED
      ensures flags == 0 <==> p !in old(sems[procs[p].node.value.sem].queue)
    {
      DownSucceeds(St(), p);
      ResumeKeeps(St(), p);
      var w := procs[p].node.value;
      assert SemOk(St(), w.sem);
      WithoutAll(sems[w.sem].queue, p);
      if p in sems[w.sem].queue {
        sems := sems[w.sem := sems[w.sem].(queue := Without(sems[w.sem].queue, p))];
      } else {
        WithoutAbsent(sems[w.sem].queue, p);
        assert sems == sems[w.sem := sems[w.sem].(queue := Without(sems[w.sem].queue, p))];
      }
      procs := procs[p := Proc(0, None)];
      flags := if w.flags != sems[w.sem].why then w.flags else 0;
    }

    method TryDown(x: Sem) returns (ok: bool)
      requires Valid() && x in sems
      modifies this`sems
      ensures Valid() && (ok <==> old(sems)[x].value > 0)
      ensures St() == if ok then Take(old(St()), x) else old(St())
      ensures ok ==> sems == old(sems)[x := Semaphore(old(sems)[x].why, old(sems)[x].value - 1, old(sems)[x].queue)]
    {
      ok := sems[x].value > 0;
      if ok {
        TakeKeeps(St(), x);
        sems := sems[x := sems[x].(value := sems[x].value - 1)];
      }
    }

    /** The wake rule of __do_kill: an interrupted waiter on a user semaphore stays in the queue. */
    method Kill(p: Pid)
      requires Valid() && p in procs
      modifies this`procs
      ensures Valid() && sems == old(sems)
      ensures procs == if old(procs)[p].waitState >= WT_INTERRUPTED then old(procs)[p := old(procs)[p].(waitState := 0)]
        else old(procs)
    {
      if procs[p].waitState >= WT_INTERRUPTED {
        WaitKeeps(St(), p, 0);
        procs := procs[p := procs[p].(waitState := 0)];
      }
    }
  }
}
