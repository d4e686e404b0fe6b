/** schedule.c: the timer list stores each deadline as the difference from the one before it. */
module Timers {
  const WORD := 0x1_0000_0000

  type Id = nat

  datatype Timer = Timer(id: Id, expires: nat)

  /** The remaining ticks of every timer, counted from base. */
  ghost function Due(ts: seq<Timer>, base: nat): map<Id, nat> {
    if ts == [] then map[]
    else Due(ts[1..], base + ts[0].expires)[ts[0].id := base + ts[0].expires]
  }

  predicate OneEach(ts: seq<Timer>) {
    forall i, j :: 0 <= i < j < |ts| ==> ts[i].id != ts[j].id
  }

  predicate Listed(ts: seq<Timer>, id: Id) {
    exists i :: 0 <= i < |ts| && ts[i].id == id
  }

  /** Between ticks: the head has at least one tick to go, and every deadline fits a machine word. */
  ghost predicate Ok(ts: seq<Timer>) {
    && OneEach(ts)
    && (ts != [] ==> ts[0].expires > 0)
    && forall id :: id in Due(ts, 0) ==> Due(ts, 0)[id] < WORD
  }

  // What the three operations do to the list.

  function Insert(ts: seq<Timer>, id: Id, n: nat): seq<Timer> {
    if ts == [] then [Timer(id, n)]
    else if n < ts[0].expires then [Timer(id, n), Timer(ts[0].id, ts[0].expires - n)] + ts[1..]
    else [ts[0]] + Insert(ts[1..], id, n - ts[0].expires)
  }

  function Delete(ts: seq<Timer>, id: Id): seq<Timer> {
    if ts == [] then []
    else if ts[0].id != id then [ts[0]] + Delete(ts[1..], id)
    else if |ts| == 1 then []
    else [Timer(ts[1].id, ts[1].expires + ts[0].expires)] + ts[2..]
  }

  function Lapsed(ts: seq<Timer>): (k: nat)
    ensures k <= |ts| && (k < |ts| ==> ts[k].expires > 0)
    ensures forall i :: 0 <= i < k ==> ts[i].expires == 0
  {
    if ts == [] || ts[0].expires > 0 then 0 else 1 + Lapsed(ts[1..])
  }

  function Counted(ts: seq<Timer>): seq<Timer> {
    if ts == [] || ts[0].expires == 0 then ts else [Timer(ts[0].id, ts[0].expires - 1)] + ts[1..]
  }

  function Ticked(ts: seq<Timer>): seq<Timer> {
    Counted(ts)[Lapsed(Counted(ts))..]
  }

  function Fired(ts: seq<Timer>): seq<Timer> {
    Counted(ts)[..Lapsed(Counted(ts))]
  }

  // What they do to the deadlines.

  lemma {:induction false} Domain(ts: seq<Timer>, base: nat, id: Id)
    ensures id in Due(ts, base) <==> Listed(ts, id)
  {
    if ts != [] {
      Domain(ts[1..], base + ts[0].expires, id);
      if Listed(ts[1..], id) {
        var i :| 0 <= i < |ts[1..]| && ts[1..][i].id == id;
        assert ts[i + 1].id == id;
      }
    }
  }

  lemma {:induction false} InsertDue(ts: seq<Timer>, id: Id, n: nat, base: nat)
    requires !Listed(ts, id)
    ensures Due(Insert(ts, id, n), base) == Due(ts, base)[id := base + n]
  {
    if ts == [] {
      assert Insert(ts, id, n)[1..] == [];
    } else if n < ts[0].expires {
      var made := Insert(ts, id, n);
      assert made[1..] == [Timer(ts[0].id, ts[0].expires - n)] + ts[1..];
      assert made[1..][1..] == ts[1..];
    } else {
      assert Insert(ts, id, n)[1..] == Insert(ts[1..], id, n - ts[0].expires);
      assert forall i :: 0 <= i < |ts[1..]| ==> ts[1..][i] == ts[i + 1];
      InsertDue(ts[1..], id, n - ts[0].expires, base + ts[0].expires);
    }
  }

  lemma {:induction false} DeleteDue(ts: seq<Timer>, id: Id, base: nat)
    requires OneEach(ts)
    ensures Due(Delete(ts, id), base) == Due(ts, base) - {id}
  {
    if ts == [] {
    } else if ts[0].id != id {
      assert Delete(ts, id)[1..] == Delete(ts[1..], id);
      DeleteDue(ts[1..], id, base + ts[0].expires);
    } else {
      Domain(ts[1..], base + ts[0].expires, id);
      if |ts| > 1 {
        assert Delete(ts, id)[1..] == ts[2..] == ts[1..][1..];
      }
    }
  }

  lemma {:induction false} Later(ts: seq<Timer>, base: nat, more: nat)
    ensures Due(ts, base + more) == map id | id in Due(ts, base) :: Due(ts, base)[id] + more
    decreases ts
  {
    if ts != [] {
      Later(ts[1..], base + ts[0].expires, more);
    }
  }

  lemma {:induction false} NotBefore(ts: seq<Timer>, base: nat)
    ensures forall id :: id in Due(ts, base) ==> Due(ts, base)[id] >= base
  {
    if ts != [] {
      NotBefore(ts[1..], base + ts[0].expires);
    }
  }

  lemma {:induction false} LapsedDue(ts: seq<Timer>)
    requires OneEach(ts)
    ensures Due(ts[Lapsed(ts)..], 0) == map id | id in Due(ts, 0) && Due(ts, 0)[id] > 0 :: Due(ts, 0)[id]
    ensures forall id :: Listed(ts[..Lapsed(ts)], id) <==> id in Due(ts, 0) && Due(ts, 0)[id] == 0
  {
    if ts == [] {
    } else if ts[0].expires > 0 {
      NotBefore(ts[1..], ts[0].expires);
      assert ts[0..] == ts;
    } else {
      LapsedDue(ts[1..]);
      Domain(ts[1..], 0, ts[0].id);
      assert ts[Lapsed(ts)..] == ts[1..][Lapsed(ts[1..])..];
      LapsedTail(ts);
    }
  }

  lemma LapsedTail(ts: seq<Timer>)
    requires ts != [] && ts[0].expires == 0
    ensures forall id ::
      Listed(ts[..Lapsed(ts)], id) <==> id == ts[0].id || Listed(ts[1..][..Lapsed(ts[1..])], id)
  {
    var a, b := ts[..Lapsed(ts)], ts[1..][..Lapsed(ts[1..])];
    assert a == [ts[0]] + b;
    forall id
      ensures Listed(a, id) <==> id == ts[0].id || Listed(b, id)
    {
      assert a[0].id == ts[0].id;
      if Listed(b, id) {
        var i :| 0 <= i < |b| && b[i].id == id;
        assert a[i + 1].id == id;
      }
    }
  }

  lemma CountedDue(ts: seq<Timer>)
    requires Ok(ts)
    ensures OneEach(Counted(ts))
    ensures Due(Counted(ts), 0).Keys == Due(ts, 0).Keys
    ensures forall id :: id in Due(ts, 0) ==> Due(ts, 0)[id] == Due(Counted(ts), 0)[id] + 1
  {
    if ts != [] {
      var made := Counted(ts);
      assert made[1..] == ts[1..];
      Later(ts[1..], ts[0].expires - 1, 1);
    }
  }

  /** A tick takes one from every deadline, and fires exactly the timers that had one tick left. */
  lemma TickDue(ts: seq<Timer>)
    requires Ok(ts)
    ensures Ok(Ticked(ts))
    ensures Due(Ticked(ts), 0) == map id | id in Due(ts, 0) && Due(ts, 0)[id] > 1 :: Due(ts, 0)[id] - 1
    ensures forall id :: Listed(Fired(ts), id) <==> id in Due(ts, 0) && Due(ts, 0)[id] == 1
  {
    CountedDue(ts);
    LapsedDue(Counted(ts));
  }

  lemma {:induction false} Positive(ts: seq<Timer>)
    requires Ok(ts)
    ensures forall id :: id in Due(ts, 0) ==> Due(ts, 0)[id] > 0
  {
    if ts != [] {
      NotBefore(ts[1..], ts[0].expires);
    }
  }

  lemma {:induction false} InsertIds(ts: seq<Timer>, id: Id, n: nat, x: Id)
    ensures Listed(Insert(ts, id, n), x) <==> x == id || Listed(ts, x)
  {
    if ts != [] && n >= ts[0].expires {
      InsertIds(ts[1..], id, n - ts[0].expires, x);
      ConsListed(ts[0], Insert(ts[1..], id, n - ts[0].expires), x);
      ConsListed(ts[0], ts[1..], x);
      assert ts == [ts[0]] + ts[1..];
    } else if ts != [] {
      var t := Timer(ts[0].id, ts[0].expires - n);
      assert Insert(ts, id, n) == [Timer(id, n)] + ([t] + ts[1..]);
      ConsListed(Timer(id, n), [t] + ts[1..], x);
      ConsListed(t, ts[1..], x);
      ConsListed(ts[0], ts[1..], x);
      assert ts == [ts[0]] + ts[1..];
    } else {
      assert Insert(ts, id, n)[0].id == id;
    }
  }

  lemma ConsListed(t: Timer, ts: seq<Timer>, x: Id)
    ensures Listed([t] + ts, x) <==> x == t.id || Listed(ts, x)
  {
    var all := [t] + ts;
    assert all[0].id == t.id;
    if Listed(ts, x) {
      var i :| 0 <= i < |ts| && ts[i].id == x;
      assert all[i + 1].id == x;
    }
  }

  lemma {:induction false} InsertDistinct(ts: seq<Timer>, id: Id, n: nat)
    requires OneEach(ts) && !Listed(ts, id)
    ensures OneEach(Insert(ts, id, n))
  {
    if ts != [] && n >= ts[0].expires {
      assert forall i :: 0 <= i < |ts[1..]| ==> ts[1..][i] == ts[i + 1];
      InsertDistinct(ts[1..], id, n - ts[0].expires);
      InsertIds(ts[1..], id, n - ts[0].expires, ts[0].id);
    }
  }

  /** add_timer sets one deadline and leaves the others. */
  lemma AddKeeps(ts: seq<Timer>, id: Id, n: nat)
    requires Ok(ts) && !Listed(ts, id) && 0 < n < WORD
    ensures Ok(Insert(ts, id, n))
    ensures Due(Insert(ts, id, n), 0) == Due(ts, 0)[id := n]
  {
    InsertDue(ts, id, n, 0);
    InsertDistinct(ts, id, n);
  }

  lemma {:induction false} DeleteListed(ts: seq<Timer>, id: Id, x: Id)
    requires Listed(Delete(ts, id), x)
    ensures Listed(ts, x)
  {
    assert ts == [ts[0]] + ts[1..];
    ConsListed(ts[0], ts[1..], x);
    if ts[0].id != id {
      ConsListed(ts[0], Delete(ts[1..], id), x);
      if x != ts[0].id {
        DeleteListed(ts[1..], id, x);
      }
    } else {
      var i :| 0 <= i < |Delete(ts, id)| && Delete(ts, id)[i].id == x;
      assert ts[i + 1].id == x;
    }
  }

  lemma {:induction false} DeleteDistinct(ts: seq<Timer>, id: Id)
    requires OneEach(ts)
    ensures OneEach(Delete(ts, id))
  {
    if ts == [] {
    } else if ts[0].id == id {
      DropHead(ts);
    } else {
      DeleteDistinct(ts[1..], id);
      if Listed(Delete(ts[1..], id), ts[0].id) {
        DeleteListed(ts[1..], id, ts[0].id);
        assert false;
      }
    }
  }

  lemma DropHead(ts: seq<Timer>)
    requires OneEach(ts) && ts != []
    ensures OneEach(Delete(ts, ts[0].id))
  {
    var made := Delete(ts, ts[0].id);
    assert forall i :: 0 <= i < |made| ==> made[i].id == ts[i + 1].id;
  }

  /** del_timer drops one deadline and leaves the others; on a timer that is not queued it does nothing. */
  lemma DelKeeps(ts: seq<Timer>, id: Id)
    requires Ok(ts)
    ensures Ok(Delete(ts, id))
    ensures Due(Delete(ts, id), 0) == Due(ts, 0) - {id}
  {
    DeleteDue(ts, id, 0);
    DeleteDistinct(ts, id);
  }

  // Whole runs.

  datatype Op = Add(id: Id, n: nat) | Del(id: Id) | Tick

  ghost function After(ts: seq<Timer>, op: Op): seq<Timer> {
    match op
    case Add(id, n) => Insert(ts, id, n)
    case Del(id) => Delete(ts, id)
    case Tick => Ticked(ts)
  }

  /** What the kernel asserts of the callers of add_timer. */
  ghost predicate Legal(ts: seq<Timer>, op: Op) {
    op.Add? ==> 0 < op.n < WORD && !Listed(ts, op.id)
  }

  ghost predicate Run(ts: seq<Timer>, ops: seq<Op>, end: seq<Timer>)
    decreases ops
  {
    if ops == [] then ts == end else Legal(ts, ops[0]) && Run(After(ts, ops[0]), ops[1..], end)
  }

  function Ticks(ops: seq<Op>): nat {
    if ops == [] then 0 else (if ops[0].Tick? then 1 else 0) + Ticks(ops[1..])
  }

  /** The tick of the run at which the timer first fires, counting from 1; 0 if it does not fire. */
  ghost function FiredAt(ts: seq<Timer>, ops: seq<Op>, id: Id): nat
    decreases ops
  {
    if ops == [] then 0
    else if ops[0].Tick? && Listed(Fired(ts), id) then 1
    else
      var later := FiredAt(After(ts, ops[0]), ops[1..], id);
      if later == 0 then 0 else later + (if ops[0].Tick? then 1 else 0)
  }

  lemma StepKeeps(ts: seq<Timer>, op: Op)
    requires Ok(ts) && Legal(ts, op)
    ensures Ok(After(ts, op))
  {
    match op
    case Add(id, n) => AddKeeps(ts, id, n);
    case Del(id) => DelKeeps(ts, id);
    case Tick => TickDue(ts);
  }

  lemma {:induction false} RunKeeps(ts: seq<Timer>, ops: seq<Op>, end: seq<Timer>)
    requires Ok(ts) && Run(ts, ops, end)
    ensures Ok(end)
    decreases ops
  {
    if ops != [] {
      StepKeeps(ts, ops[0]);
      RunKeeps(After(ts, ops[0]), ops[1..], end);
    }
  }

  /** Another operation leaves a pending timer's ticks alone; a tick takes one, or fires it. */
  lemma StepOn(ts: seq<Timer>, op: Op, id: Id)
    requires Ok(ts) && Legal(ts, op) && Listed(ts, id) && op != Del(id)
    ensures id in Due(ts, 0)
    ensures !op.Tick? ==> id in Due(After(ts, op), 0) && Due(After(ts, op), 0)[id] == Due(ts, 0)[id]
    ensures op.Tick? && Due(ts, 0)[id] > 1 ==>
      && id in Due(After(ts, op), 0) && Due(After(ts, op), 0)[id] == Due(ts, 0)[id] - 1
      && !Listed(Fired(ts), id)
    ensures op.Tick? && Due(ts, 0)[id] <= 1 ==> Listed(Fired(ts), id) && Due(ts, 0)[id] == 1
  {
    Domain(ts, 0, id);
    Positive(ts);
    match op
    case Add(x, n) => AddKeeps(ts, x, n);
    case Del(x) => DelKeeps(ts, x);
    case Tick => TickDue(ts);
  }

  /** In every run a pending timer that is not deleted fires at exactly the tick it was set for, and not before. */
  lemma {:induction false} OnTime(ts: seq<Timer>, ops: seq<Op>, end: seq<Timer>, id: Id)
    requires Ok(ts) && Run(ts, ops, end) && Listed(ts, id) && Del(id) !in ops
    ensures id in Due(ts, 0)
    ensures Ticks(ops) >= Due(ts, 0)[id] ==> FiredAt(ts, ops, id) == Due(ts, 0)[id]
    ensures Ticks(ops) < Due(ts, 0)[id] ==> FiredAt(ts, ops, id) == 0
    ensures Ticks(ops) < Due(ts, 0)[id] ==>
      id in Due(end, 0) && Due(end, 0)[id] == Due(ts, 0)[id] - Ticks(ops)
    decreases ops
  {
    Domain(ts, 0, id);
    Positive(ts);
    if ops != [] {
      StepOn(ts, ops[0], id);
      StepKeeps(ts, ops[0]);
      var next := After(ts, ops[0]);
      if !(ops[0].Tick? && Due(ts, 0)[id] == 1) {
        Domain(next, 0, id);
        OnTime(next, ops[1..], end, id);
      }
    }
  }

  /** At how many ticks of the run the timer fires. */
  ghost function Firings(ts: seq<Timer>, ops: seq<Op>, id: Id): nat
    decreases ops
  {
    if ops == [] then 0
    else (if ops[0].Tick? && Listed(Fired(ts), id) then 1 else 0) + Firings(After(ts, ops[0]), ops[1..], id)
  }

  /** The run does not add the timer again. */
  ghost predicate NotAdded(ops: seq<Op>, id: Id) {
    forall op :: op in ops && op.Add? ==> op.id != id
  }

  /** A timer that is not pending and not added does not fire. */
  lemma {:induction false} Quiet(ts: seq<Timer>, ops: seq<Op>, end: seq<Timer>, id: Id)
    requires Ok(ts) && Run(ts, ops, end) && !Listed(ts, id) && NotAdded(ops, id)
    ensures Firings(ts, ops, id) == 0 && !Listed(end, id)
    decreases ops
  {
    if ops != [] {
      StaysOut(ts, ops[0], id);
      StepKeeps(ts, ops[0]);
      Quiet(After(ts, ops[0]), ops[1..], end, id);
    }
  }

  lemma StaysOut(ts: seq<Timer>, op: Op, id: Id)
    requires Ok(ts) && Legal(ts, op) && !Listed(ts, id) && (op.Add? ==> op.id != id)
    ensures !Listed(After(ts, op), id) && (op.Tick? ==> !Listed(Fired(ts), id))
  {
    Domain(ts, 0, id);
    Domain(After(ts, op), 0, id);
    match op
    case Add(x, n) => AddKeeps(ts, x, n);
    case Del(x) => DelKeeps(ts, x);
    case Tick => TickDue(ts);
  }

  /** It fires once in a run that does not add it again. */
  lemma {:induction false} Once(ts: seq<Timer>, ops: seq<Op>, end: seq<Timer>, id: Id)
    requires Ok(ts) && Run(ts, ops, end) && Listed(ts, id) && Del(id) !in ops && NotAdded(ops, id)
    ensures id in Due(ts, 0) && Firings(ts, ops, id) == if Ticks(ops) >= Due(ts, 0)[id] then 1 else 0
    decreases ops
  {
    Domain(ts, 0, id);
    Positive(ts);
    if ops != [] {
      StepOn(ts, ops[0], id);
      StepKeeps(ts, ops[0]);
      var next := After(ts, ops[0]);
      Domain(next, 0, id);
      if ops[0].Tick? && Due(ts, 0)[id] == 1 {
        TickDue(ts);
        Quiet(next, ops[1..], end, id);
      } else {
        Once(next, ops[1..], end, id);
      }
    }
  }

  /** A timer added with n fires on the n-th tick after that. */
  lemma AddedFires(ts: seq<Timer>, id: Id, n: nat, ops: seq<Op>, end: seq<Timer>)
    requires Ok(ts) && Legal(ts, Add(id, n)) && Run(Insert(ts, id, n), ops, end) && Del(id) !in ops
    ensures FiredAt(Insert(ts, id, n), ops, id) == if Ticks(ops) >= n then n else 0
  {
    AddKeeps(ts, id, n);
    Domain(Insert(ts, id, n), 0, id);
    OnTime(Insert(ts, id, n), ops, end, id);
  }

  /** The walk of add_timer: where the new timer goes, and what is left of its ticks there. */
  method FindSlot(ts: seq<Timer>, id: Id, n: nat) returns (i: nat, left: nat)
    ensures i <= |ts| && (i < |ts| ==> left < ts[i].expires)
    ensures Insert(ts, id, n) == ts[..i] + Insert(ts[i..], id, left)
  {
    i, left := 0, n;
    assert ts[0..] == ts;
    while i < |ts| && left >= ts[i].expires
      invariant i <= |ts| && Insert(ts, id, n) == ts[..i] + Insert(ts[i..], id, left)
    {
      InsertPast(ts, i, id, left);
      left := left - ts[i].expires;
      i := i + 1;
    }
  }

  method Find(ts: seq<Timer>, id: Id) returns (i: nat)
    ensures i <= |ts| && (i < |ts| ==> ts[i].id == id)
    ensures Delete(ts, id) == ts[..i] + Delete(ts[i..], id)
  {
    i := 0;
    assert ts[0..] == ts;
    while i < |ts| && ts[i].id != id
      invariant i <= |ts| && Delete(ts, id) == ts[..i] + Delete(ts[i..], id)
    {
      DeletePast(ts, i, id);
      i := i + 1;
    }
  }

  class TimerList {
    var timers: seq<Timer>

    ghost predicate Valid()
      reads this
    {
      Ok(timers)
    }

    ghost function Deadlines(): map<Id, nat>
      reads this
    {
      Due(timers, 0)
    }

    constructor ()
      ensures Valid() && timers == []
    {
      timers := [];
    }

    /** add_timer: walk until the deadline falls before the next timer, which gives up the difference. */
    method AddTimer(id: Id, n: nat)
      requires Valid() && 0 < n < WORD && !Listed(timers, id)
      modifies this
      ensures Valid() && timers == Insert(old(timers), id, n)
      ensures Deadlines() == old(Deadlines())[id := n]
    {
      AddKeeps(timers, id, n);
      var i, left := FindSlot(timers, id, n);
      InsertHere(timers, i, id, left);
      if i < |timers| {
        timers := timers[i := Timer(timers[i].id, timers[i].expires - left)];
      }
      timers := timers[..i] + [Timer(id, left)] + timers[i..];
    }

    /** del_timer: the timer after it takes over its difference. */
    method DelTimer(id: Id)
      requires Valid()
      modifies this
      ensures Valid() && timers == Delete(old(timers), id)
      ensures Deadlines() == old(Deadlines()) - {id}
    {
      DelKeeps(timers, id);
      var i := Find(timers, id);
      if i < |timers| {
        DeleteHere(timers, i, id);
        if timers[i].expires != 0 && i + 1 < |timers| {
          timers := timers[i + 1 := Timer(timers[i + 1].id, timers[i + 1].expires + timers[i].expires)];
        }
        timers := timers[..i] + timers[i + 1..];
      }
    }

    /** run_timer_list: count the head down and wake everything that has run out; the assertion on the head holds. */
    method RunTimerList() returns (fired: seq<Timer>)
      requires Valid()
      modifies this
      ensures Valid() && timers == Ticked(old(timers)) && fired == Fired(old(timers))
      ensures Deadlines() ==
        map id | id in old(Deadlines()) && old(Deadlines())[id] > 1 :: old(Deadlines())[id] - 1
      ensures forall id :: Listed(fired, id) <==> id in old(Deadlines()) && old(Deadlines())[id] == 1
    {
      TickDue(timers);
      if timers == [] {
        return [];
      }
      assert timers[0].expires != 0;
      timers := [Timer(timers[0].id, timers[0].expires - 1)] + timers[1..];
      fired := FireLapsed();
    }

    /** Its loop: wake and unlink the head while it has no ticks left. */
    method FireLapsed() returns (fired: seq<Timer>)
      modifies this
      ensures fired == old(timers)[..Lapsed(old(timers))] && timers == old(timers)[Lapsed(old(timers))..]
    {
      fired := [];
      while timers != [] && timers[0].expires == 0
        invariant |fired| <= Lapsed(old(timers))
        invariant fired == old(timers)[..|fired|] && timers == old(timers)[|fired|..]
        decreases |timers|
      {
        fired := fired + [timers[0]];
        timers := timers[1..];
      }
    }
  }

  lemma InsertPast(ts: seq<Timer>, i: nat, id: Id, n: nat)
    requires i < |ts| && n >= ts[i].expires
    ensures ts[..i] + Insert(ts[i..], id, n) == ts[..i + 1] + Insert(ts[i + 1..], id, n - ts[i].expires)
  {
    assert ts[i..][1..] == ts[i + 1..];
    assert ts[..i + 1] == ts[..i] + [ts[i]];
  }

  lemma InsertHere(ts: seq<Timer>, i: nat, id: Id, n: nat)
    requires i <= |ts| && (i < |ts| ==> n < ts[i].expires)
    ensures i == |ts| ==> ts[..i] + Insert(ts[i..], id, n) == ts + [Timer(id, n)]
    ensures i < |ts| ==>
      ts[..i] + Insert(ts[i..], id, n)
        == ts[..i] + [Timer(id, n)] + ts[i := Timer(ts[i].id, ts[i].expires - n)][i..]
  {
    if i < |ts| {
      assert ts[i..][1..] == ts[i + 1..];
      assert ts[i := Timer(ts[i].id, ts[i].expires - n)][i..]
          == [Timer(ts[i].id, ts[i].expires - n)] + ts[i + 1..];
    }
  }

  lemma DeletePast(ts: seq<Timer>, i: nat, id: Id)
    requires i < |ts| && ts[i].id != id
    ensures ts[..i] + Delete(ts[i..], id) == ts[..i + 1] + Delete(ts[i + 1..], id)
  {
    assert ts[i..][1..] == ts[i + 1..];
    assert ts[..i + 1] == ts[..i] + [ts[i]];
  }

  lemma DeleteHere(ts: seq<Timer>, i: nat, id: Id)
    requires i < |ts| && ts[i].id == id
    ensures i + 1 == |ts| ==> ts[..i] + Delete(ts[i..], id) == ts[..i]
    ensures i + 1 < |ts| ==>
      ts[..i] + Delete(ts[i..], id)
        == ts[..i] + ts[i + 1 := Timer(ts[i + 1].id, ts[i + 1].expires + ts[i].expires)][i + 1..]
  {
    if i + 1 < |ts| {
      assert ts[i..][2..] == ts[i + 2..];
      assert ts[i + 1 := Timer(ts[i + 1].id, ts[i + 1].expires + ts[i].expires)][i + 1..]
          == [Timer(ts[i + 1].id, ts[i + 1].expires + ts[i].expires)] + ts[i + 2..];
    }
  }
}
