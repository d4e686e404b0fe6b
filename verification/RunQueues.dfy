/** schedule.c with schedule_MLFQ.c over schedule_RR.c: four round-robin queues with growing time slices. */
module RunQueues {
  import opened Lists

  const QUEUES := 4

  type Pid = nat

  datatype Life = Uninit | Sleeping | Runnable | Zombie

  datatype Proc = Proc(life: Life, slice: nat, rq: Option<nat>, resched: bool)

  datatype Sched = Sched(
    procs: map<Pid, Proc>, queues: seq<seq<Pid>>, counts: seq<nat>, current: Pid, idle: Pid)

  /** max_time_slice of the queues: 8, 16, 32, 64. */
  function MaxSlice(q: nat): (n: nat)
    ensures n >= 8
  {
    if q == 0 then 8 else 2 * MaxSlice(q - 1)
  }

  /** Linked into a run queue. */
  predicate Queued(s: Sched, p: Pid) {
    p in s.procs && s.procs[p].rq.Some? && s.procs[p].rq.value < |s.queues| && p in s.queues[s.procs[p].rq.value]
  }

  /** Ready to run and not running. */
  predicate Waiting(s: Sched, p: Pid) {
    p in s.procs && s.procs[p].life.Runnable? && p != s.current && p != s.idle
  }

  ghost predicate QueueOk(s: Sched, q: nat)
    requires q < |s.queues| == |s.counts|
  {
    && s.counts[q] == |s.queues[q]| && Distinct(s.queues[q])
    && forall p :: p in s.queues[q] ==>
         && p in s.procs && s.procs[p].rq == Some(q)
         && 1 <= s.procs[p].slice <= MaxSlice(q)
  }

  ghost predicate Sound(s: Sched) {
    && |s.queues| == |s.counts| == QUEUES
    && s.current in s.procs && s.idle in s.procs && s.procs[s.idle].life.Runnable?
    && (forall q :: 0 <= q < QUEUES ==> QueueOk(s, q))
    && forall p :: p in s.procs && s.procs[p].rq.Some? ==> s.procs[p].rq.value < QUEUES
  }

  /** A process is in a run queue if and only if it is runnable, not current and not idle. */
  ghost predicate Ok(s: Sched) {
    Sound(s) && forall p :: Queued(s, p) <==> Waiting(s, p)
  }

  /** It is in one queue only, once. */
  lemma OneQueue(s: Sched, p: Pid, q: nat, i: nat, r: nat, j: nat)
    requires Ok(s) && q < QUEUES && r < QUEUES
    requires i < |s.queues[q]| && j < |s.queues[r]| && s.queues[q][i] == p == s.queues[r][j]
    ensures q == r && i == j && Waiting(s, p)
  {
    assert QueueOk(s, q) && QueueOk(s, r);
    assert Queued(s, p);
  }

  // The operations.

  /** MLFQ_enqueue: a used-up slice moves the process one queue on, an unused one back to the first. */
  function Target(p: Proc): nat {
    if p.rq.Some? && p.slice == 0 then (if p.rq.value + 1 == QUEUES then p.rq.value else p.rq.value + 1) else 0
  }

  /** RR_enqueue: refill an empty slice and cap a long one. */
  function Refilled(p: Proc): Proc {
    var q := Target(p);
    p.(rq := Some(q), slice := if p.slice == 0 || p.slice > MaxSlice(q) then MaxSlice(q) else p.slice)
  }

  /** The slices of the four queues in ticks. */
  const MAX_SLICES: seq<nat> := [8, 16, 32, 64]

  lemma SliceTable()
    ensures forall q: nat :: q < QUEUES ==> MaxSlice(q) == MAX_SLICES[q]
  {
    assert MaxSlice(1) == 16 && MaxSlice(2) == 32;
  }

  /** A process that used up its slice joins the next queue, or the last one again; any other joins the first. Its slice is what
      it had left, or all that the queue gives if it had none or more than that. */
  ghost predicate Joins(was: Proc, now: Proc) {
    && now.life == was.life && now.resched == was.resched && now.rq.Some? && now.rq.value < QUEUES
    && (was.rq.None? || was.slice > 0 ==> now.rq.value == 0)
    && (was.rq.Some? && was.slice == 0 ==> now.rq.value == was.rq.value + 1 || now.rq.value == was.rq.value == QUEUES - 1)
    && (if 0 < was.slice <= MAX_SLICES[now.rq.value] then now.slice == was.slice else now.slice == MAX_SLICES[now.rq.value])
  }

  function Enqueue(s: Sched, p: Pid): Sched
    requires p in s.procs && Target(s.procs[p]) < |s.queues| == |s.counts|
  {
    var q := Target(s.procs[p]);
    s.(procs := s.procs[p := Refilled(s.procs[p])],
       queues := s.queues[q := s.queues[q] + [p]],
       counts := s.counts[q := s.counts[q] + 1])
  }

  /** The first queue with a process, from q on. */
  function FirstUsed(s: Sched, q: nat): (r: nat)
    requires q <= |s.queues|
    ensures q <= r <= |s.queues| && (r < |s.queues| ==> s.queues[r] != [])
    ensures forall i :: q <= i < r ==> s.queues[i] == []
    decreases |s.queues| - q
  {
    if q == |s.queues| || s.queues[q] != [] then q else FirstUsed(s, q + 1)
  }

  function PopHead(s: Sched, q: nat): Sched
    requires q < |s.queues| == |s.counts| && s.queues[q] != [] && s.counts[q] > 0
  {
    s.(queues := s.queues[q := s.queues[q][1..]], counts := s.counts[q := s.counts[q] - 1])
  }

  function WithLife(s: Sched, p: Pid, life: Life): Sched
    requires p in s.procs
  {
    s.(procs := s.procs[p := s.procs[p].(life := life)])
  }

  /** wakeup_process; waking a runnable process only warns. */
  function Wake(s: Sched, p: Pid): Sched
    requires Sound(s) && p in s.procs
  {
    if s.procs[p].life.Runnable? then s
    else
      var t := WithLife(s, p, Runnable);
      if p == s.current || p == s.idle then t else Enqueue(t, p)
  }

  /** The first half of schedule: a current process that can go on joins a queue again. */
  function Rejoin(s: Sched): Sched
    requires Sound(s)
  {
    var t := s.(procs := s.procs[s.current := s.procs[s.current].(resched := false)]);
    if s.procs[s.current].life.Runnable? && s.current != s.idle then Enqueue(t, s.current) else t
  }

  /** A process that can go on joins a queue, any other is left as it is. */
  ghost predicate Yields(was: Proc, now: Proc, counted: bool) {
    if was.life.Runnable? && counted then Joins(was, now) else now == was
  }

  /** Queue q once the process has joined. */
  ghost function After(queues: seq<seq<Pid>>, q: nat, now: Proc, p: Pid, counted: bool): seq<Pid>
    requires q < |queues|
  {
    if now.life.Runnable? && counted && now.rq == Some(q) then queues[q] + [p] else queues[q]
  }

  /** The head of the first queue that is not empty leaves it and runs; without one the idle process does. */
  ghost predicate Picks(was: seq<seq<Pid>>, queues: seq<seq<Pid>>, current: Pid, idle: Pid) {
    && |queues| == |was|
    && if forall q :: 0 <= q < |was| ==> was[q] == [] then current == idle && queues == was
       else exists f :: PicksFrom(was, queues, current, f)
  }

  ghost predicate PicksFrom(was: seq<seq<Pid>>, queues: seq<seq<Pid>>, current: Pid, f: nat) {
    && f < |was| == |queues| && was[f] == [current] + queues[f] && (forall q :: 0 <= q < f ==> was[q] == [])
    && forall q :: 0 <= q < |was| && q != f ==> queues[q] == was[q]
  }

  lemma PicksAt(was: seq<seq<Pid>>, queues: seq<seq<Pid>>, current: Pid, idle: Pid, f: nat)
    requires f < |was| && was[f] != [] && current == was[f][0] && queues == was[f := was[f][1..]]
    requires forall q :: 0 <= q < f ==> was[q] == []
    ensures Picks(was, queues, current, idle)
  {
    assert was[f] == [current] + queues[f];
    assert PicksFrom(was, queues, current, f);
  }

  /** The queues once the process has joined one, and the choice made from them. */
  ghost predicate Switches(was: seq<seq<Pid>>, now: Proc, p: Pid, counted: bool, queues: seq<seq<Pid>>, current: Pid, idle: Pid) {
    exists mid: seq<seq<Pid>> ::
      && |mid| == |was| && (forall q :: 0 <= q < |was| ==> mid[q] == After(was, q, now, p, counted))
      && Picks(mid, queues, current, idle)
  }

  lemma SwitchesBy(was: seq<seq<Pid>>, now: Proc, p: Pid, counted: bool, mid: seq<seq<Pid>>, queues: seq<seq<Pid>>, current: Pid, idle: Pid)
    requires |mid| == |was| && (forall q :: 0 <= q < |was| ==> mid[q] == After(was, q, now, p, counted))
    requires Picks(mid, queues, current, idle)
    ensures Switches(was, now, p, counted, queues, current, idle)
  {
  }

  /** The second half: run the head of the first used queue, or idle. */
  function PickAndRun(s: Sched): Sched
    requires Sound(s)
  {
    var q := FirstUsed(s, 0);
    if q == QUEUES then s.(current := s.idle)
    else
      assert QueueOk(s, q);
      PopHead(s, q).(current := s.queues[q][0])
  }

  // Every operation keeps the invariant.

  lemma EnqueueKeeps(s: Sched, p: Pid)
    requires Sound(s) && p in s.procs && !Queued(s, p)
    ensures Target(s.procs[p]) < QUEUES
    ensures Sound(Enqueue(s, p))
    ensures forall x :: Queued(Enqueue(s, p), x) <==> x == p || Queued(s, x)
  {
    var t := Enqueue(s, p);
    NowhereElse(s, p);
    forall q | 0 <= q < QUEUES
      ensures QueueOk(t, q)
    {
      assert QueueOk(s, q);
    }
  }

  lemma NowhereElse(s: Sched, p: Pid)
    requires Sound(s) && p in s.procs && !Queued(s, p)
    ensures forall q :: 0 <= q < QUEUES ==> p !in s.queues[q]
  {
    forall q | 0 <= q < QUEUES
      ensures p !in s.queues[q]
    {
      assert QueueOk(s, q);
    }
  }

  lemma PopKeeps(s: Sched, q: nat)
    requires Sound(s) && q < QUEUES && s.queues[q] != []
    ensures s.counts[q] > 0 && Sound(PopHead(s, q)) && Queued(s, s.queues[q][0])
    ensures forall x :: Queued(PopHead(s, q), x) <==> x != s.queues[q][0] && Queued(s, x)
  {
    assert QueueOk(s, q);
    var t, head := PopHead(s, q), s.queues[q][0];
    forall r | 0 <= r < QUEUES
      ensures QueueOk(t, r)
    {
      assert QueueOk(s, r);
    }
    PopMembers(s, q);
  }

  lemma PopMembers(s: Sched, q: nat)
    requires Sound(s) && q < QUEUES && s.queues[q] != [] && s.counts[q] > 0
    ensures Queued(s, s.queues[q][0])
    ensures forall x :: Queued(PopHead(s, q), x) <==> x != s.queues[q][0] && Queued(s, x)
  {
    assert QueueOk(s, q);
    var t, head := PopHead(s, q), s.queues[q][0];
    assert forall x :: x in t.queues[q] <==> x != head && x in s.queues[q];
  }

  lemma WakeKeeps(s: Sched, p: Pid)
    requires Ok(s) && p in s.procs && !s.procs[p].life.Zombie?
    ensures Ok(Wake(s, p))
  {
    if !s.procs[p].life.Runnable? {
      var t := WithLife(s, p, Runnable);
      assert !Queued(s, p);
      LifeKeeps(s, p, Runnable);
      if p != s.current && p != s.idle {
        EnqueueKeeps(t, p);
      }
    }
  }

  lemma LifeKeeps(s: Sched, p: Pid, life: Life)
    requires Sound(s) && p in s.procs && (p == s.idle ==> life.Runnable?)
    ensures Sound(WithLife(s, p, life))
    ensures forall x :: Queued(WithLife(s, p, life), x) <==> Queued(s, x)
  {
    var t := WithLife(s, p, life);
    forall q | 0 <= q < QUEUES
      ensures QueueOk(t, q)
    {
      assert QueueOk(s, q);
    }
  }

  /** After the first half the queues hold every runnable process but idle, running or not. */
  lemma RejoinKeeps(s: Sched)
    requires Ok(s)
    ensures Sound(Rejoin(s)) && Rejoin(s).idle == s.idle
    ensures forall x :: Queued(Rejoin(s), x) <==> x in s.procs && s.procs[x].life.Runnable? && x != s.idle
    ensures Rejoin(s).procs.Keys == s.procs.Keys
    ensures forall x :: x in s.procs ==> Rejoin(s).procs[x].life == s.procs[x].life
  {
    var t := s.(procs := s.procs[s.current := s.procs[s.current].(resched := false)]);
    forall q | 0 <= q < QUEUES
      ensures QueueOk(t, q)
    {
      assert QueueOk(s, q);
    }
    assert forall x :: Queued(t, x) <==> Queued(s, x);
    if s.procs[s.current].life.Runnable? && s.current != s.idle {
      EnqueueKeeps(t, s.current);
    }
  }

  lemma SwitchKeeps(s: Sched, p: Pid)
    requires Sound(s) && p in s.procs
    ensures Sound(s.(current := p))
    ensures forall x :: Queued(s.(current := p), x) <==> Queued(s, x)
  {
    var t := s.(current := p);
    forall q | 0 <= q < QUEUES
      ensures QueueOk(t, q)
    {
      assert QueueOk(s, q);
    }
  }

  lemma ScheduleKeeps(s: Sched)
    requires Ok(s)
    ensures Sound(Rejoin(s)) && Ok(PickAndRun(Rejoin(s)))
  {
    RejoinKeeps(s);
    var t := Rejoin(s);
    var q := FirstUsed(t, 0);
    if q == QUEUES {
      NoneQueued(t);
      SwitchKeeps(t, t.idle);
    } else {
      PopKeeps(t, q);
      SwitchKeeps(PopHead(t, q), t.queues[q][0]);
    }
  }

  lemma NoneQueued(s: Sched)
    requires Sound(s) && FirstUsed(s, 0) == QUEUES
    ensures forall x :: !Queued(s, x)
  {
  }

  /** The idle process runs only when no other process can. */
  lemma IdleIsLast(s: Sched)
    requires Ok(s)
    ensures Sound(Rejoin(s))
    ensures PickAndRun(Rejoin(s)).current == s.idle
      <==> forall x :: x in s.procs && s.procs[x].life.Runnable? ==> x == s.idle
  {
    RejoinKeeps(s);
    var t := Rejoin(s);
    var q := FirstUsed(t, 0);
    if q == QUEUES {
      NoneQueued(t);
    } else {
      PopKeeps(t, q);
    }
  }

  // Ticks, forks and exits.

  /** process_tick: count the running slice down, and ask for a new choice when it is used up. */
  function Tick(s: Sched): Sched
    requires Sound(s)
  {
    var p := s.procs[s.current];
    var slice := if p.slice > 0 then p.slice - 1 else 0;
    s.(procs := s.procs[s.current :=
      if s.current == s.idle then p.(resched := true) else p.(slice := slice, resched := p.resched || slice == 0)])
  }

  /** A change to a process that is in no queue. */
  lemma LooseKeeps(s: Sched, p: Pid, x: Proc)
    requires Sound(s) && p in s.procs && !Queued(s, p)
    requires x.rq == s.procs[p].rq && (p == s.idle ==> x.life.Runnable?)
    ensures Sound(s.(procs := s.procs[p := x]))
    ensures forall y :: Queued(s.(procs := s.procs[p := x]), y) <==> Queued(s, y)
  {
    var t := s.(procs := s.procs[p := x]);
    NowhereElse(s, p);
    forall q | 0 <= q < QUEUES
      ensures QueueOk(t, q)
    {
      assert QueueOk(s, q);
    }
  }

  lemma SameOk(s: Sched, t: Sched)
    requires Ok(s) && Sound(t)
    requires forall x :: Queued(t, x) <==> Queued(s, x)
    requires forall x :: Waiting(t, x) <==> Waiting(s, x)
    ensures Ok(t)
  {
  }

  lemma TickKeeps(s: Sched)
    requires Ok(s)
    ensures Ok(Tick(s))
  {
    var x := Tick(s).procs[s.current];
    assert Tick(s) == s.(procs := s.procs[s.current := x]);
    LooseKeeps(s, s.current, x);
    SameOk(s, Tick(s));
  }

  /** The running process starts to sleep or dies; it stays current until schedule. */
  lemma StopKeeps(s: Sched, life: Life)
    requires Ok(s) && s.current != s.idle
    ensures Ok(WithLife(s, s.current, life))
    ensures WithLife(s, s.current, life) == s.(procs := s.procs[s.current := s.procs[s.current].(life := life)])
  {
    LifeKeeps(s, s.current, life);
  }

  /** do_fork takes half the parent's slice for the child. */
  function Split(s: Sched, child: Pid): Sched
    requires Sound(s)
  {
    var p := s.procs[s.current];
    s.(procs := s.procs[s.current := p.(slice := p.slice - p.slice / 2)][child := Proc(Uninit, p.slice / 2, None, false)])
  }

  function Fork(s: Sched, child: Pid): Sched
    requires Sound(s) && Sound(Split(s, child))
  {
    Wake(Split(s, child), child)
  }

  /** A fork that fails after the split: the child is freed, and its half with it. */
  function FailedFork(s: Sched): Sched
    requires Sound(s)
  {
    var p := s.procs[s.current];
    s.(procs := s.procs[s.current := p.(slice := p.slice - p.slice / 2)])
  }

  lemma SplitKeeps(s: Sched, child: Pid)
    requires Ok(s) && child !in s.procs
    ensures Ok(Split(s, child))
  {
    var t := FailedFork(s);
    var x, y := t.procs[s.current], Split(s, child).procs[child];
    assert t == s.(procs := s.procs[s.current := x]);
    assert Split(s, child) == t.(procs := t.procs[child := y]);
    LooseKeeps(s, s.current, x);
    NewKeeps(t, child, y);
    SameOk(s, Split(s, child));
  }

  lemma NewKeeps(s: Sched, p: Pid, x: Proc)
    requires Sound(s) && p !in s.procs && x.rq.None?
    ensures Sound(s.(procs := s.procs[p := x]))
    ensures forall y :: Queued(s.(procs := s.procs[p := x]), y) <==> Queued(s, y)
  {
    var t := s.(procs := s.procs[p := x]);
    forall q | 0 <= q < QUEUES
      ensures QueueOk(t, q)
    {
      assert QueueOk(s, q);
    }
  }

  lemma ForkKeeps(s: Sched, child: Pid)
    requires Ok(s) && child !in s.procs
    ensures Sound(Split(s, child)) && Ok(Fork(s, child))
  {
    SplitKeeps(s, child);
    WakeKeeps(Split(s, child), child);
  }

  /** do_wait frees a zombie child. */
  function Reap(s: Sched, p: Pid): Sched {
    s.(procs := s.procs - {p})
  }

  lemma ReapKeeps(s: Sched, p: Pid)
    requires Ok(s) && p in s.procs && s.procs[p].life.Zombie? && p != s.current
    ensures Ok(Reap(s, p)) && p !in Reap(s, p).procs && forall q :: q in s.procs && q != p ==> q in Reap(s, p).procs
  {
    var t := Reap(s, p);
    NowhereElse(s, p);
    forall q | 0 <= q < QUEUES
      ensures QueueOk(t, q)
    {
      assert QueueOk(s, q);
    }
    assert !Queued(s, p);
    assert forall x :: Queued(t, x) <==> Queued(s, x);
  }

  /** Splitting conserves the slice, but queueing the child refills or caps its half:
      a whole fork conserves it exactly when the parent has between 2 and 17 ticks. */
  lemma ForkConserves(s: Sched, child: Pid)
    requires Ok(s) && child !in s.procs && child != s.idle
    ensures Sound(Split(s, child))
    ensures Split(s, child).procs[s.current].slice + Split(s, child).procs[child].slice == s.procs[s.current].slice
    ensures Fork(s, child).procs[s.current].slice + Fork(s, child).procs[child].slice == s.procs[s.current].slice
      <==> 2 <= s.procs[s.current].slice <= 17
  {
    SplitKeeps(s, child);
    assert MaxSlice(0) == 8;
  }

  /** A failed fork costs the parent half of its slice. */
  lemma FailedForkLoses(s: Sched)
    requires Ok(s)
    ensures Ok(FailedFork(s))
    ensures FailedFork(s).procs[s.current].slice == s.procs[s.current].slice <==> s.procs[s.current].slice <= 1
  {
    var x := FailedFork(s).procs[s.current];
    assert FailedFork(s) == s.(procs := s.procs[s.current := x]);
    LooseKeeps(s, s.current, x);
    SameOk(s, FailedFork(s));
  }

  // Whole runs.

  datatype Step = Woken(p: Pid) | Scheduled | Ticked | Slept | Exited | Forked(p: Pid) | ForkFailed | Reaped(p: Pid)

  /** What the kernel's callers see to; nothing here speaks of the queues. */
  ghost predicate Can(s: Sched, step: Step) {
    match step
    case Woken(p) => p in s.procs && !s.procs[p].life.Zombie?
    case Slept => s.current in s.procs && s.current != s.idle
    case Exited => s.current in s.procs && s.current != s.idle
    case Forked(p) => p !in s.procs
    case Reaped(p) => p in s.procs && s.procs[p].life.Zombie? && p != s.current
    case _ => true
  }

  /** What each step does to queues in order. */
  ghost predicate Next(s: Sched, step: Step, t: Sched)
    requires Can(s, step)
  {
    Sound(s) ==>
      match step
      case Woken(p) => t == Wake(s, p)
      case Scheduled => Sound(Rejoin(s)) ==> t == PickAndRun(Rejoin(s))
      case Ticked => t == Tick(s)
      case Slept => t == WithLife(s, s.current, Sleeping)
      case Exited => t == WithLife(s, s.current, Zombie)
      case Forked(p) => Sound(Split(s, p)) ==> t == Fork(s, p)
      case ForkFailed => t == FailedFork(s)
      case Reaped(p) => t == Reap(s, p)
  }

  ghost predicate Run(states: seq<Sched>, steps: seq<Step>) {
    && |states| == |steps| + 1
    && forall i :: 0 <= i < |steps| ==> Can(states[i], steps[i]) && Next(states[i], steps[i], states[i + 1])
  }

  lemma NextKeeps(s: Sched, step: Step, t: Sched)
    requires Ok(s) && Can(s, step) && Next(s, step, t)
    ensures Ok(t)
  {
    match step
    case Woken(p) => WakeKeeps(s, p);
    case Scheduled => ScheduleKeeps(s);
    case Ticked => TickKeeps(s);
    case Slept => StopKeeps(s, Sleeping);
    case Exited => StopKeeps(s, Zombie);
    case Forked(p) => ForkKeeps(s, p);
    case ForkFailed => FailedForkLoses(s);
    case Reaped(p) => ReapKeeps(s, p);
  }

  /** Over every run the queues hold exactly the processes that wait for the processor. */
  lemma {:induction false} RunKeeps(states: seq<Sched>, steps: seq<Step>)
    requires Run(states, steps) && Ok(states[0])
    ensures forall i :: 0 <= i < |states| ==> Ok(states[i])
    decreases |steps|
  {
    if steps != [] {
      var n := |steps| - 1;
      assert forall i :: 0 <= i <= n ==> states[..n + 1][i] == states[i];
      RunKeeps(states[..n + 1], steps[..n]);
      assert Can(states[n], steps[n]) && Next(states[n], steps[n], states[n + 1]);
      assert states[..n + 1][n] == states[n];
      NextKeeps(states[n], steps[n], states[n + 1]);
      forall i | 0 <= i < |states|
        ensures Ok(states[i])
      {
        assert i <= n ==> states[..n + 1][i] == states[i];
      }
    }
  }

  lemma BootOk(idle: Pid)
    ensures Ok(Sched(map[idle := Proc(Runnable, 0, None, true)], [[], [], [], []], [0, 0, 0, 0], idle, idle))
  {
    var s := Sched(map[idle := Proc(Runnable, 0, None, true)], [[], [], [], []], [0, 0, 0, 0], idle, idle);
    forall q | 0 <= q < QUEUES
      ensures QueueOk(s, q)
    {
      assert s.queues[q] == [];
    }
  }

  /** The kernel's run queues and the operations on them, as the code performs them. */
  class Scheduler {
    var procs: map<Pid, Proc>
    var queues: seq<seq<Pid>>
    var counts: seq<nat>
    var current: Pid
    const idle: Pid

    ghost function St(): Sched
      reads this
    {
      Sched(procs, queues, counts, current, idle)
    }

    ghost predicate Valid()
      reads this
    {
      Ok(St())
    }

    constructor (idle: Pid)
      ensures Valid() && procs.Keys == {idle} && current == idle == this.idle
    {
      this.idle, current := idle, idle;
      procs := map[idle := Proc(Runnable, 0, None, true)];
      queues, counts := [[], [], [], []], [0, 0, 0, 0];
      new;
      BootOk(idle);
    }

    /** RR_enqueue. */
    method AddTail(q: nat, p: Pid)
      requires p in procs && q < |queues| == |counts|
      modifies this`procs, this`queues, this`counts
      ensures queues == old(queues)[q := old(queues)[q] + [p]] && counts == old(counts)[q := old(counts)[q] + 1]
      ensures procs == old(procs)[p := old(procs)[p].(rq := Some(q), slice :=
        if old(procs)[p].slice == 0 || old(procs)[p].slice > MaxSlice(q) then MaxSlice(q) else old(procs)[p].slice)]
    {
      queues := queues[q := queues[q] + [p]];
      if procs[p].slice == 0 || procs[p].slice > MaxSlice(q) {
        procs := procs[p := procs[p].(slice := MaxSlice(q))];
      }
      procs := procs[p := procs[p].(rq := Some(q))];
      counts := counts[q := counts[q] + 1];
    }

    /** MLFQ_enqueue: the next queue after the last one is the first, and then the process stays. */
    method EnqueueProcess(p: Pid)
      requires Sound(St()) && p in procs && !Queued(St(), p)
      modifies this`procs, this`queues, this`counts
      ensures St() == Enqueue(old(St()), p)
      ensures procs == old(procs)[p := procs[p]] && Joins(old(procs)[p], procs[p])
      ensures procs[p].rq.Some? && procs[p].rq.value < |old(queues)| == |old(counts)|
      ensures var q := procs[p].rq.value;
        queues == old(queues)[q := old(queues)[q] + [p]] && counts == old(counts)[q := old(counts)[q] + 1]
    {
      var target := 0;
      if procs[p].rq.Some? && procs[p].slice == 0 {
        target := (procs[p].rq.value + 1) % QUEUES;
        if target == 0 {
          target := procs[p].rq.value;
        }
      }
      SliceTable();
      AddTail(target, p);
    }

    /** MLFQ_pick_next. */
    method PickNext() returns (p: Option<Pid>)
      requires Sound(St())
      ensures p.None? <==> forall x :: !Queued(St(), x)
      ensures p.Some? ==> FirstUsed(St(), 0) < QUEUES && p.value == queues[FirstUsed(St(), 0)][0]
      ensures p.None? ==> FirstUsed(St(), 0) == QUEUES
    {
      var q := 0;
      while q < QUEUES && queues[q] == []
        invariant 0 <= q <= QUEUES && FirstUsed(St(), 0) == FirstUsed(St(), q)
      {
        q := q + 1;
      }
      if q == QUEUES {
        NoneQueued(St());
        return None;
      }
      PopKeeps(St(), q);
      p := Some(queues[q][0]);
    }

    /** RR_dequeue, which the scheduler uses on the process it picked. */
    method DequeueProcess(p: Pid)
      requires Sound(St()) && Queued(St(), p) && queues[procs[p].rq.value][0] == p
      modifies this`queues, this`counts
      ensures old(counts[procs[p].rq.value]) > 0 && St() == PopHead(old(St()), procs[p].rq.value)
    {
      var q := procs[p].rq.value;
      PopKeeps(St(), q);
      queues := queues[q := queues[q][1..]];
      counts := counts[q := counts[q] - 1];
    }

    method WakeupProcess(p: Pid)
      requires Valid() && p in procs && !procs[p].life.Zombie?
      modifies this`procs, this`queues, this`counts
      ensures Valid() && St() == Wake(old(St()), p)
      ensures p in procs && procs[p].life.Runnable? && procs == old(procs)[p := procs[p]]
      ensures old(procs)[p].life.Runnable? ==> St() == old(St())
      ensures !old(procs)[p].life.Runnable? && (p == current || p == idle) ==>
        procs[p] == old(procs)[p].(life := Runnable) && queues == old(queues) && counts == old(counts)
      ensures !old(procs)[p].life.Runnable? && p != current && p != idle ==>
        && Joins(old(procs)[p].(life := Runnable), procs[p]) && Queued(St(), p)
        && queues == old(queues)[procs[p].rq.value := old(queues)[procs[p].rq.value] + [p]]
    {
      WakeKeeps(St(), p);
      if !procs[p].life.Runnable? {
        LifeKeeps(St(), p, Runnable);
        procs := procs[p := procs[p].(life := Runnable)];
        if p != current && p != idle {
          EnqueueProcess(p);
        }
      }
    }

    /** schedule: the running process queues up again, and the head of the first used queue runs. */
    method Schedule()
      requires Valid()
      modifies this
      ensures Valid() && Sound(Rejoin(old(St()))) && St() == PickAndRun(Rejoin(old(St())))
      ensures current == idle <==> forall x :: x in old(procs) && old(procs)[x].life.Runnable? ==> x == idle
      ensures old(current) in old(procs) && old(current) in procs && procs == old(procs)[old(current) := procs[old(current)]]
      ensures Yields(old(procs)[old(current)].(resched := false), procs[old(current)], old(current) != idle)
      ensures Switches(old(queues), procs[old(current)], old(current), old(current) != idle, queues, current, idle)
    {
      ScheduleKeeps(St());
      IdleIsLast(St());
      RejoinCurrent();
      ghost var mid := queues;
      RunNext();
      SwitchesBy(old(queues), procs[old(current)], old(current), old(current) != idle, mid, queues, current, idle);
    }

    method RunNext()
      requires Sound(St())
      modifies this`queues, this`counts, this`current
      ensures St() == PickAndRun(old(St())) && Picks(old(queues), queues, current, idle)
    {
      ghost var t := St();
      var next := PickNext();
      if next.Some? {
        PopKeeps(t, FirstUsed(t, 0));
        HeadRq(t, FirstUsed(t, 0));
        DequeueProcess(next.value);
        current := next.value;
        PicksAt(t.queues, queues, current, idle, FirstUsed(t, 0));
      } else {
        current := idle;
      }
    }

    method RejoinCurrent()
      requires Valid()
      modifies this`procs, this`queues, this`counts
      ensures Sound(St()) && St() == Rejoin(old(St()))
      ensures current in old(procs) && current in procs && procs == old(procs)[current := procs[current]]
      ensures Yields(old(procs)[current].(resched := false), procs[current], current != idle)
      ensures |queues| == |old(queues)| && forall q :: 0 <= q < |queues| ==> queues[q] == After(old(queues), q, procs[current], current, current != idle)
    {
      RejoinKeeps(St());
      ghost var s := St();
      procs := procs[current := procs[current].(resched := false)];
      LooseKeeps(s, current, procs[current]);
      if procs[current].life.Runnable? && current != idle {
        EnqueueProcess(current);
      }
    }

    method ProcessTick()
      requires Valid()
      modifies this`procs
      ensures Valid() && St() == Tick(old(St()))
      ensures current in old(procs) && current in procs && procs == old(procs)[current := procs[current]]
      ensures var was, now := old(procs)[current], procs[current];
        && now.life == was.life && now.rq == was.rq
        && if current == idle then now.slice == was.slice && now.resched
           else
             && now.slice == (if was.slice > 0 then was.slice - 1 else 0)
             && (was.slice <= 1 ==> now.resched) && (was.slice > 1 ==> now.resched == was.resched)
    {
      TickKeeps(St());
      if current == idle {
        procs := procs[current := procs[current].(resched := true)];
      } else {
        if procs[current].slice > 0 {
          procs := procs[current := procs[current].(slice := procs[current].slice - 1)];
        }
        if procs[current].slice == 0 {
          procs := procs[current := procs[current].(resched := true)];
        }
      }
      assert procs == old(procs)[current := procs[current]];
    }

    method TakeHalf() returns (half: nat)
      requires Valid()
      modifies this`procs
      ensures Valid() && half == old(procs)[current].slice / 2 && St() == FailedFork(old(St()))
    {
      FailedForkLoses(St());
      half := procs[current].slice / 2;
      procs := procs[current := procs[current].(slice := procs[current].slice - half)];
    }

    /** The scheduling part of do_fork, which may run out of memory after the split. */
    method DoFork(child: Pid, enough: bool)
      requires Valid() && child !in procs
      modifies this`procs, this`queues, this`counts
      ensures Valid() && Sound(Split(old(St()), child))
      ensures enough ==> St() == Fork(old(St()), child)
      ensures !enough ==> St() == FailedFork(old(St()))
      ensures current in old(procs) && current in procs
      ensures var half := old(procs)[current].slice / 2;
        && procs[current] == old(procs)[current].(slice := old(procs)[current].slice - half)
        && (!enough ==> procs == old(procs)[current := procs[current]] && queues == old(queues) && counts == old(counts))
        && (enough ==>
              && child in procs && procs == old(procs)[current := procs[current]][child := procs[child]]
              && Joins(Proc(Runnable, half, None, false), procs[child])
              && queues == old(queues)[0 := old(queues)[0] + [child]])
    {
      ghost var s := St();
      SplitKeeps(s, child);
      var half := TakeHalf();
      if enough {
        procs := procs[child := Proc(Uninit, half, None, false)];
        assert St() == Split(s, child);
        WakeupProcess(child);
      }
    }
  }

  lemma HeadRq(s: Sched, q: nat)
    requires Sound(s) && q < QUEUES && s.queues[q] != []
    ensures s.queues[q][0] in s.procs && s.procs[s.queues[q][0]].rq == Some(q)
  {
    assert QueueOk(s, q);
  }
}
