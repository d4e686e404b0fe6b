/** process.c: get_pid keeps a cached range of unused pids and falls back to a scan of the process list. */
module Pids {
  import opened Lists

  const MAX_PROCESS := 4096
  const MAX_PID := 8192
  const IDLE: nat := 0

  type Pid = p: int | 1 <= p < MAX_PID witness 1

  function Succ(p: nat): (q: Pid)
    requires 1 <= p <= MAX_PID
  {
    if p + 1 >= MAX_PID then 1 else p + 1
  }

  /** Steps of Succ from c to f: the pids are a cycle. */
  function Steps(c: Pid, f: Pid): nat
  {
    if c <= f then f - c else f + (MAX_PID - 1) - c
  }

  /** p is the first pid that nobody has, looking round the cycle from c. */
  ghost predicate FirstFree(live: seq<Pid>, c: Pid, p: Pid)
    decreases Steps(c, p)
  {
    p !in live && (c == p || (c in live && FirstFree(live, Succ(c), p)))
  }

  lemma {:induction false} FirstFreeUnique(live: seq<Pid>, c: Pid, p: Pid, q: Pid)
    requires FirstFree(live, c, p) && FirstFree(live, c, q)
    ensures p == q
    decreases Steps(c, p)
  {
    if c != p {
      FirstFreeUnique(live, Succ(c), p, q);
    }
  }

  /** Told in numbers: every pid on the way from c up to p, round the end if need be, is taken. */
  lemma {:induction false} FirstFreeMeans(live: seq<Pid>, c: Pid, p: Pid)
    ensures FirstFree(live, c, p) <==>
              p !in live && forall q: Pid :: (if c <= p then c <= q < p else c <= q || q < p) ==> q in live
    decreases Steps(c, p)
  {
    if c != p {
      FirstFreeMeans(live, Succ(c), p);
    }
  }

  /** Fewer pids in use than there are pids: some pid is free. */
  lemma {:induction false} SomeFree(live: seq<int>, n: nat) returns (f: int)
    requires |live| < n
    ensures 1 <= f <= n && f !in live
  {
    if n in live {
      var k :| 0 <= k < |live| && live[k] == n;
      var rest := live[..k] + live[k + 1..];
      f := SomeFree(rest, n - 1);
      forall i | 0 <= i < |live| ensures live[i] != f {
        assert i < k ==> rest[i] == live[i];
        assert i > k ==> rest[i - 1] == live[i];
      }
    } else {
      f := n;
    }
  }

  lemma {:induction false} FreeAhead(live: seq<Pid>, c: Pid, f: Pid) returns (p: Pid)
    requires f !in live
    ensures FirstFree(live, c, p)
    decreases Steps(c, f)
  {
    if c in live {
      p := FreeAhead(live, Succ(c), f);
    } else {
      p := c;
    }
  }

  /** No pid of live lies strictly between last and next. */
  ghost predicate Clear(live: seq<Pid>, last: int, next: int) {
    forall i :: 0 <= i < |live| ==> !(last < live[i] < next)
  }

  /** A list has no more members than places. */
  lemma {:induction false} FewMembers(live: seq<Pid>)
    ensures |set p: nat | p in live| <= |live|
  {
    if live != [] {
      FewMembers(live[1..]);
      assert live == [live[0]] + live[1..];
      assert (set p: nat | p in live) == (set p: nat | p in live[1..]) + {live[0] as nat};
    }
  }

  /** At most every process is inside do_fork, the idle process included. */
  lemma FewForking(live: seq<Pid>, forking: set<nat>)
    requires forall p :: p in forking ==> p == IDLE || p in live
    ensures |forking| <= |live| + 1
  {
    var all := (set p: nat | p in live) + {IDLE};
    assert forking <= all;
    Subset(forking, all);
    FewMembers(live);
  }

  lemma Subset(a: set<nat>, b: set<nat>)
    requires a <= b
    ensures |a| <= |b|
  {
    assert b == a + (b - a);
  }

  class ProcessTable {
    var live: seq<Pid>
    var nrProcess: nat
    var lastPid: int
    var nextSafe: int
    ghost var forking: set<nat>   // who is between the test in do_fork and its end

    /** What get_pid relies on. */
    ghost predicate Ready()
      reads this
    {
      && |live| < MAX_PID - 1
      && 1 <= lastPid <= MAX_PID && nextSafe <= MAX_PID && Clear(live, lastPid, nextSafe)
    }

    /** nr_process counts the idle process too. Every process inside do_fork may still add one, and all passed the test. */
    ghost predicate Valid()
      reads this
    {
      && Ready() && Distinct(live) && nrProcess == |live| + 1
      && (forall p :: p in forking ==> p == IDLE || p in live)
      && |live| + |forking| < 2 * (MAX_PROCESS - 1)
    }

    constructor ()
      ensures Valid() && live == [] && forking == {}
    {
      live, nrProcess, lastPid, nextSafe, forking := [], 1, MAX_PID, MAX_PID, {};
    }

    /** get_pid: the first unused pid after the one given out last. */
    method GetPid() returns (pid: Pid)
      requires Ready()
      modifies this`lastPid, this`nextSafe
      ensures Ready() && pid == lastPid && FirstFree(live, Succ(old(lastPid)), pid)
      ensures pid !in live
      ensures forall q: Pid :: (if old(lastPid) < pid then old(lastPid) < q < pid else old(lastPid) < q || q < pid) ==> q in live
    {
      ghost var f := SomeFree(live, MAX_PID - 1);
      ghost var goal := FreeAhead(live, Succ(lastPid), f);
      lastPid := lastPid + 1;
      if lastPid >= MAX_PID {
        lastPid := 1;
        Scan(goal);
      } else if lastPid >= nextSafe {
        Scan(goal);
      } else {
        assert lastPid !in live;
      }
      pid := lastPid;
      FirstFreeUnique(live, Succ(old(lastPid)), pid, goal);
      FirstFreeMeans(live, Succ(old(lastPid)), pid);
    }

    /** The scan from label inside: restarted only when the cached range is used up. */
    method Scan(ghost goal: Pid)
      requires 1 <= lastPid < MAX_PID && FirstFree(live, lastPid, goal)
      modifies this`lastPid, this`nextSafe
      ensures lastPid == goal && nextSafe <= MAX_PID && Clear(live, lastPid, nextSafe)
    {
      var again := true;
      while again
        invariant again ==> 1 <= lastPid < MAX_PID && FirstFree(live, lastPid, goal)
        invariant !again ==> lastPid == goal && nextSafe <= MAX_PID && Clear(live, lastPid, nextSafe)
        decreases if again then Steps(lastPid, goal) + 1 else 0
      {
        again := Pass(goal);
      }
    }

    /** One pass over the list, from label repeat. */
    method Pass(ghost goal: Pid) returns (again: bool)
      requires 1 <= lastPid < MAX_PID && FirstFree(live, lastPid, goal)
      modifies this`lastPid, this`nextSafe
      ensures again ==> 1 <= lastPid < MAX_PID && FirstFree(live, lastPid, goal)
      ensures again ==> Steps(lastPid, goal) < Steps(old(lastPid), goal)
      ensures !again ==> lastPid == goal && nextSafe <= MAX_PID && Clear(live, lastPid, nextSafe)
    {
      nextSafe := MAX_PID;
      var i := 0;
      while i < |live|
        invariant 0 <= i <= |live| && 1 <= lastPid < nextSafe <= MAX_PID
        invariant FirstFree(live, lastPid, goal) && Steps(lastPid, goal) <= Steps(old(lastPid), goal)
        invariant forall j :: 0 <= j < i ==> !(lastPid <= live[j] < nextSafe)
      {
        if live[i] == lastPid {
          lastPid := lastPid + 1;
          if lastPid >= nextSafe {
            if lastPid >= MAX_PID {
              lastPid := 1;
            }
            nextSafe := MAX_PID;
            return true;
          }
        } else if live[i] > lastPid && nextSafe > live[i] {
          nextSafe := live[i];
        }
        i := i + 1;
      }
      assert lastPid !in live;
      again := false;
    }

    /** The test at the start of do_fork, which may sleep after it: several forks can pass before the first counts. */
    method ForkBegin(parent: nat) returns (ok: bool)
      requires Valid() && (parent == IDLE || parent in live) && parent !in forking
      modifies this`forking
      ensures Valid() && (ok <==> |live| + 1 < MAX_PROCESS)
      ensures forking == if ok then old(forking) + {parent} else old(forking)
    {
      ok := nrProcess < MAX_PROCESS;
      if ok {
        forking := forking + {parent};
        FewForking(live, forking);
      }
    }

    /** The part of do_fork that names the child: whoever else is forking, a pid is left for it. */
    method ForkCommit(parent: nat) returns (pid: Pid)
      requires Valid() && parent in forking
      modifies this
      ensures Valid() && live == [pid] + old(live) && forking == old(forking) - {parent}
      ensures pid !in old(live) && FirstFree(old(live), Succ(old(lastPid)), pid)
    {
      pid := GetPid();
      live := [pid] + live;
      nrProcess := nrProcess + 1;
      forking := forking - {parent};
    }

    /** do_fork gives up for want of memory. */
    method ForkAbort(parent: nat)
      requires Valid() && parent in forking
      modifies this`forking
      ensures Valid() && forking == old(forking) - {parent}
    {
      forking := forking - {parent};
    }

    /** do_wait reaps a zombie: its pid leaves the list, and may fall inside the cached range. */
    method Reap(pid: Pid)
      requires Valid() && pid in live && pid !in forking
      modifies this`live, this`nrProcess
      ensures Valid() && |live| == |old(live)| - 1 && pid !in live && lastPid == old(lastPid)
      ensures forall p :: p in live <==> p in old(live) && p != pid
    {
      var i := 0;
      while live[i] != pid
        invariant 0 <= i < |live| && pid !in live[..i]
        decreases |live| - i
      {
        i := i + 1;
      }
      ghost var was := live;
      live := live[..i] + live[i + 1..];
      nrProcess := nrProcess - 1;
      forall p: Pid
        ensures p in live <==> p in was && p != pid
      {
        assert was == was[..i] + [was[i]] + was[i + 1..];
      }
    }
  }
}
