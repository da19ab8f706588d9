/** The ring buffers behind the queues, and the code of kernel/proc.c and kernel/trap.c that works
    on them. */
module Scheduler {
  import opened Sequences
  import opened Mlfq

  /** struct priority_queue: NPROC + 1 slots, of which `length` from `front` on are in use. */
  datatype Ring = Ring(procs: seq<nat>, front: nat, back: nat, length: nat)

  /** (front + i) % (NPROC + 1) */
  function Slot(front: nat, i: nat): nat {
    if front + i < 65 then front + i else front + i - 65
  }

  predicate RingOk(r: Ring) {
    |r.procs| == 65 && r.front < 65 && r.length <= 64 && r.back == Slot(r.front, r.length)
  }

  /** The i-th element from the front. */
  function At(procs: seq<nat>, front: nat, i: nat): nat
    requires |procs| == 65 && front < 65 && i <= 64
  {
    procs[Slot(front, i)]
  }

  lemma AtSet(procs: seq<nat>, front: nat, i: nat, j: nat, p: nat)
    requires |procs| == 65 && front < 65 && i <= 64 && j <= 64
    ensures At(procs[Slot(front, j) := p], front, i) == if i == j then p else At(procs, front, i)
  {
  }

  function Elems(r: Ring): (l: seq<nat>)
    requires RingOk(r)
    ensures |l| == r.length && forall i :: 0 <= i < |l| ==> l[i] == At(r.procs, r.front, i)
  {
    seq(r.length, i requires 0 <= i < r.length => At(r.procs, r.front, i))
  }

  /** The queue part of enqueue. */
  method Push(r: Ring, p: nat) returns (n: Ring)
    requires RingOk(r) && r.length < NPROC
    ensures RingOk(n) && Elems(n) == Elems(r) + [p]
  {
    var back := r.back + 1;
    if back == NPROC + 1 {
      back := 0;
    }
    n := Ring(r.procs[r.back := p], r.front, back, r.length + 1);
    forall i | 0 <= i < n.length ensures Elems(n)[i] == (Elems(r) + [p])[i] {
      AtSet(r.procs, r.front, i, r.length, p);
    }
  }

  /** The queue part of dequeue. */
  method Pop(r: Ring) returns (n: Ring)
    requires RingOk(r) && r.length > 0
    ensures RingOk(n) && Elems(n) == Elems(r)[1..]
  {
    var front := r.front + 1;
    if front == NPROC + 1 {
      front := 0;
    }
    n := Ring(r.procs, front, r.back, r.length - 1);
    forall i | 0 <= i < n.length ensures Elems(n)[i] == Elems(r)[1..][i] {
      assert At(r.procs, front, i) == At(r.procs, r.front, i + 1);
    }
  }

  /** The queue part of delqueue: every element behind the one with the given pid moves up. */
  method Delete(r: Ring, table: seq<Proc>, pid: nat, ghost k: nat) returns (n: Ring)
    requires RingOk(r) && k < r.length && (forall i :: 0 <= i < r.length ==> Elems(r)[i] < |table|)
    requires forall i :: 0 <= i <= k ==> (table[Elems(r)[i]].pid == pid <==> i == k)
    ensures RingOk(n) && Elems(n) == Without(Elems(r), k)
  {
    var procs, curr, found := r.procs, r.front, false;
    ghost var j := 0;
    while curr != r.back
      invariant 0 <= j <= r.length && curr == Slot(r.front, j) && |procs| == 65 && (found <==> j > k)
      invariant forall i :: 0 <= i <= r.length ==>
                At(procs, r.front, i) == At(r.procs, r.front, if k <= i < j then i + 1 else i)
      decreases r.length - j
    {
      assert At(procs, r.front, j) == Elems(r)[j];
      ghost var was := procs;
      if MatchesPid(table, procs[curr], pid) {
        found := true;
      }
      if found {
        procs := procs[curr := procs[Slot(curr, 1)]];
        Shifted(was, procs, r.front, j, r.length);
      }
      curr := Slot(curr, 1);
      j := j + 1;
    }
    var back := if r.back == 0 then NPROC else r.back - 1;
    n := Ring(procs, r.front, back, r.length - 1);
    forall i | 0 <= i < n.length ensures Elems(n)[i] == Without(Elems(r), k)[i] {
      assert At(procs, r.front, i) == At(r.procs, r.front, if k <= i then i + 1 else i);
    }
  }

  predicate MatchesPid(table: seq<Proc>, p: nat, pid: nat)
    requires p < |table|
  {
    table[p].pid == pid
  }

  /** The element after the j-th replaces it. */
  lemma Shifted(procs: seq<nat>, now: seq<nat>, front: nat, j: nat, n: nat)
    requires |procs| == 65 && front < 65 && j < n <= 64 && now == procs[Slot(front, j) := procs[Slot(front, j + 1)]]
    ensures Slot(Slot(front, j), 1) == Slot(front, j + 1)
    ensures forall i :: 0 <= i <= n ==> At(now, front, i) == At(procs, front, if i == j then j + 1 else i)
  {
    forall i | 0 <= i <= n ensures At(now, front, i) == At(procs, front, if i == j then j + 1 else i) {
      AtSet(procs, front, i, j, procs[Slot(front, j + 1)]);
    }
  }

  // ---------- the queues ----------

  predicate RingsOk(rs: seq<Ring>) {
    |rs| == LEVELS && forall i :: 0 <= i < LEVELS ==> RingOk(rs[i])
  }

  function Queues(rs: seq<Ring>): (q: seq<seq<nat>>)
    requires RingsOk(rs)
    ensures |q| == LEVELS && forall i :: 0 <= i < LEVELS ==> q[i] == Elems(rs[i])
  {
    seq(LEVELS, i requires 0 <= i < LEVELS => Elems(rs[i]))
  }

  lemma QueuesSet(rs: seq<Ring>, i: nat, r: Ring)
    requires RingsOk(rs) && i < LEVELS && RingOk(r)
    ensures RingsOk(rs[i := r]) && Queues(rs[i := r]) == Queues(rs)[i := Elems(r)]
  {
  }

  class Machine {
    var procs: seq<Proc>
    var queues: seq<Ring>

    ghost function View(): Sched
      requires RingsOk(queues)
      reads this
    {
      Sched(procs, Queues(queues))
    }

    ghost predicate Valid()
      reads this
    {
      RingsOk(queues) && Inv(View())
    }

    constructor ()
      ensures Valid() && View() == Boot()
    {
      procs := seq(NPROC, _ => Proc(0, Unused, 0, false, 0, 0));
      queues := seq(LEVELS, _ => Ring(seq(65, _ => 0), 0, 0, 0));
      new;
      assert Queues(queues) == Boot().q;
      BootInv();
    }

    /** enqueue; its panic cannot happen. */
    method Enqueue(p: nat)
      requires Valid() && p < NPROC && procs[p].state == Runnable && !procs[p].inQueue
      modifies this
      ensures Valid() && old(procs)[p].priority < LEVELS && View() == Mlfq.Enqueue(old(View()), p)
    {
      EnqueueInv(View(), p);
      Room(View(), p);
      var i := procs[p].priority;
      if queues[i].length == NPROC {
        assert false;
      }
      var r := Push(queues[i], p);
      QueuesSet(queues, i, r);
      queues := queues[i := r];
      procs := procs[p := procs[p].(rtime := 0, wtime := 0, inQueue := true)];
    }

    /** dequeue of the process at the front of its queue; its panic cannot happen. */
    method Dequeue(p: nat)
      requires RingsOk(queues) && p < |procs| && procs[p].priority < LEVELS && View().q[procs[p].priority] != [] &&
               View().q[procs[p].priority][0] == p
      modifies this
      ensures RingsOk(queues) &&
              View() == Leave(old(View()), old(procs)[p].priority, 0, old(procs)[p].(inQueue := false))
    {
      var i := procs[p].priority;
      if queues[i].length == 0 {
        assert false;
      }
      var r := Pop(queues[i]);
      assert Without(Elems(queues[i]), 0) == Elems(queues[i])[1..];
      QueuesSet(queues, i, r);
      queues := queues[i := r];
      procs := procs[p := procs[p].(inQueue := false)];
    }

    /** delqueue of a queued process */
    method DelQueue(p: nat)
      requires Valid() && p < NPROC && procs[p].inQueue
      modifies this
      ensures RingsOk(queues)
      ensures var x := old(procs)[p];
              x.priority < LEVELS && p in old(View()).q[x.priority] &&
                View() == Leave(old(View()), x.priority, IndexOf(old(View()).q[x.priority], p), x.(wtime := 0))
    {
      var i := procs[p].priority;
      assert ProcOk(View(), p);
      ghost var k := IndexOf(View().q[i], p);
      PidFound(View(), p, k);
      var r := Delete(queues[i], procs, procs[p].pid, k);
      QueuesSet(queues, i, r);
      queues := queues[i := r];
      procs := procs[p := procs[p].(wtime := 0)];
    }

    /** One pass of scheduler(), up to swtch: the process to run, or NPROC. */
    method SchedulePass() returns (run: nat)
      requires Valid()
      modifies this
      ensures Valid() && View() == Pass(old(View()))
      ensures run <= NPROC && (run == NPROC <==> forall p :: 0 <= p < NPROC ==> old(procs)[p].state != Runnable)
      ensures run < NPROC ==> procs[run].state == Running && old(procs)[run].state == Runnable
    {
      var p := 0;
      while p < NPROC
        invariant 0 <= p <= NPROC && Valid() && View() == QueueAll(old(View()), p)
      {
        if procs[p].state == Runnable && !procs[p].inQueue {
          Enqueue(p);
        }
        p := p + 1;
      }
      ghost var t := View();
      PassInv(old(View()));
      PassChoice(old(View()));
      var i := 0;
      while i < LEVELS
        invariant 0 <= i <= LEVELS && Valid() && View() == t && Lowest(t.q, 0) == Lowest(t.q, i)
      {
        if queues[i].length > 0 {
          run := queues[i].procs[queues[i].front];
          Front(t, i, run);
          Dequeue(run);
          if procs[run].state != Runnable {
            assert false;           // so that the loop never has to try the next one
          }
          procs := procs[run := procs[run].(state := Running)];
          assert procs == t.procs[run := t.procs[run].(inQueue := false, state := Running)];
          return;
        }
        i := i + 1;
      }
      run := NPROC;
    }

    /** update_time */
    method UpdateTime()
      requires Valid()
      modifies this
      ensures Valid() && View() == TickAll(old(View()), NPROC)
    {
      var p := 0;
      while p < NPROC
        invariant 0 <= p <= NPROC && Valid() && View() == TickAll(old(View()), p)
      {
        UpdateProc(p);
        p := p + 1;
      }
    }

    /** update_time for one process */
    method UpdateProc(p: nat)
      requires Valid() && p < NPROC
      modifies this
      ensures Valid() && View() == TickProc(old(View()), p)
    {
      TickProcInv(View(), p);
      assert ProcOk(View(), p);
      ghost var was := procs;
      if procs[p].state == Running {
        procs := procs[p := procs[p].(rtime := procs[p].rtime + 1)];
      } else if procs[p].state == Runnable {
        if procs[p].wtime + 1 >= AGE {
          if procs[p].inQueue {
            DelQueue(p);
          } else {
            procs := procs[p := procs[p].(wtime := procs[p].wtime + 1)];
          }
          procs := procs[p := Promoted(procs[p])];
          assert procs == was[p := procs[p]];
        } else {
          procs := procs[p := procs[p].(wtime := procs[p].wtime + 1)];
        }
      }
    }

    /** The timer part of usertrap and kerneltrap for the running process. */
    method TimerTrap(p: nat, user: bool) returns (gaveUp: bool)
      requires Valid() && p < NPROC && procs[p].state == Running
      modifies this
      ensures Valid() && View() == Trap(old(View()), p, user) && (gaveUp <==> procs[p].state == Runnable)
    {
      NextInv(View(), Timer(p, user));
      assert ProcOk(View(), p);
      ghost var was := procs;
      if procs[p].rtime >= Slice(procs[p].priority) {
        if procs[p].priority != 4 {
          procs := procs[p := procs[p].(priority := procs[p].priority + 1)];
        }
        if user {
          procs := procs[p := procs[p].(rtime := 0, wtime := 0)];
        }
        procs := procs[p := procs[p].(state := Runnable)];
        assert procs == was[p := procs[p]];
        return true;
      }
      var i := 0;
      while i < procs[p].priority
        invariant 0 <= i <= procs[p].priority && View() == old(View()) && forall j :: 0 <= j < i ==> View().q[j] == []
      {
        if queues[i].length > 0 {
          assert View().q[i] != [];
          procs := procs[p := procs[p].(state := Runnable)];
          return true;
        }
        i := i + 1;
      }
      return false;
    }
  }

  /** The pid leads delqueue to the process itself. */
  lemma PidFound(s: Sched, p: nat, k: nat)
    requires Inv(s) && p < NPROC && s.procs[p].inQueue && s.procs[p].priority < LEVELS &&
             p in s.q[s.procs[p].priority] && k == IndexOf(s.q[s.procs[p].priority], p)
    ensures var l := s.q[s.procs[p].priority];
            && (forall i :: 0 <= i < |l| ==> l[i] < NPROC)
            && forall i :: 0 <= i <= k ==> (s.procs[l[i]].pid == s.procs[p].pid <==> i == k)
  {
    var l := s.q[s.procs[p].priority];
    assert QueueOk(s, s.procs[p].priority);
    forall i | 0 <= i < |l| ensures l[i] < NPROC && s.procs[l[i]].state == Runnable {
      assert l[i] in l && ProcOk(s, l[i]);
    }
    OwnPid(s, p);
  }

  lemma Front(t: Sched, i: nat, p: nat)
    requires Inv(t) && i < LEVELS && t.q[i] != [] && t.q[i][0] == p
    ensures p < NPROC && t.procs[p].priority == i && t.procs[p].state == Runnable
  {
    assert QueueOk(t, i) && p in t.q[i] && ProcOk(t, p);
  }
}
