/** The multi-level feedback queue of kernel/proc.c and kernel/trap.c on one hart: five queues of
    process-table slots, and the steps that move processes between them. */
module Mlfq {
  import opened Sequences

  const NPROC := 64
  const LEVELS := 5
  const AGE := 30                   // ticks after which a waiting process is promoted

  datatype State = Unused | Used | Sleeping | Runnable | Running | Zombie

  /** The fields of struct proc that the scheduler uses: rtime and wtime are curr_rtime and
      curr_wtime. */
  datatype Proc = Proc(pid: nat, state: State, priority: nat, inQueue: bool, rtime: nat, wtime: nat)

  datatype Sched = Sched(procs: seq<Proc>, q: seq<seq<nat>>)

  predicate Shape(s: Sched) {
    |s.procs| == NPROC && |s.q| == LEVELS
  }

  /** A queue holds every process at most once, and only processes of its level that know they are
      queued. */
  predicate QueueOk(s: Sched, i: nat)
    requires Shape(s) && i < LEVELS
  {
    Distinct(s.q[i]) && forall p :: p in s.q[i] ==> p < NPROC && s.procs[p].priority == i && s.procs[p].inQueue
  }

  /** A process that believes it is queued is runnable, in the queue of its level, has waited there for less
      than AGE ticks, and has all of its slice before it. */
  predicate ProcOk(s: Sched, p: nat)
    requires Shape(s) && p < NPROC
  {
    && s.procs[p].priority < LEVELS
    && (s.procs[p].inQueue ==>
          && s.procs[p].state == Runnable && p in s.q[s.procs[p].priority]
          && s.procs[p].wtime < AGE && s.procs[p].rtime == 0)
  }

  predicate PidsDiffer(s: Sched) {
    forall p, r :: 0 <= p < r < |s.procs| && s.procs[p].state != Unused && s.procs[r].state != Unused ==>
      s.procs[p].pid != s.procs[r].pid
  }

  predicate Inv(s: Sched) {
    && Shape(s) && PidsDiffer(s)
    && (forall i :: 0 <= i < LEVELS ==> QueueOk(s, i))
    && (forall p :: 0 <= p < NPROC ==> ProcOk(s, p))
  }

  /** in_queue is set exactly when the process is in the queue of its level, and then it is there
      once and in no other queue. */
  lemma Membership(s: Sched, p: nat)
    requires Inv(s) && p < NPROC
    ensures s.procs[p].priority < LEVELS && (s.procs[p].inQueue <==> p in s.q[s.procs[p].priority])
    ensures forall i :: 0 <= i < LEVELS && p in s.q[i] ==> i == s.procs[p].priority && s.procs[p].state == Runnable
    ensures forall i, j, k :: 0 <= i < LEVELS && 0 <= j < k < |s.q[i]| ==> s.q[i][j] != s.q[i][k]
  {
    assert ProcOk(s, p);
    assert QueueOk(s, s.procs[p].priority);
    forall i | 0 <= i < LEVELS && p in s.q[i] ensures i == s.procs[p].priority {
      assert QueueOk(s, i);
    }
    forall i, j, k | 0 <= i < LEVELS && 0 <= j < k < |s.q[i]| ensures s.q[i][j] != s.q[i][k] {
      assert QueueOk(s, i);
    }
  }

  // ---------- no queue overflows ----------

  lemma {:induction false} Pigeonhole(l: seq<nat>, n: nat)
    requires Distinct(l) && forall p :: p in l ==> p < n
    ensures |l| <= n
  {
    if l != [] {
      assert l[0] in l;
      if n - 1 in l {
        var k :| 0 <= k < |l| && l[k] == n - 1;
        forall p | p in Without(l, k) ensures p < n - 1 {
          WithoutHas(l, k, p);
          WithoutOnce(l, k);
        }
        Pigeonhole(Without(l, k), n - 1);
      } else {
        Pigeonhole(l, n - 1);
      }
    }
  }

  lemma WithoutOnce(l: seq<nat>, k: nat)
    requires Distinct(l) && k < |l|
    ensures l[k] !in Without(l, k)
  {
  }

  /** A process that is not queued always finds room: "Full queue" cannot happen. */
  lemma Room(s: Sched, p: nat)
    requires Inv(s) && p < NPROC && !s.procs[p].inQueue
    ensures s.procs[p].priority < LEVELS && |s.q[s.procs[p].priority]| < NPROC
  {
    assert ProcOk(s, p);
    var l := s.q[s.procs[p].priority];
    assert QueueOk(s, s.procs[p].priority);
    assert p !in l;
    Pigeonhole(l + [p], NPROC);
  }

  // ---------- the steps ----------

  function SetProc(s: Sched, p: nat, x: Proc): Sched
    requires p < |s.procs|
  {
    Sched(s.procs[p := x], s.q)
  }

  /** enqueue */
  function Enqueue(s: Sched, p: nat): Sched
    requires p < |s.procs| && s.procs[p].priority < |s.q|
  {
    var x, i := s.procs[p], s.procs[p].priority;
    Sched(s.procs[p := x.(rtime := 0, wtime := 0, inQueue := true)], s.q[i := s.q[i] + [p]])
  }

  lemma EnqueueInv(s: Sched, p: nat)
    requires Inv(s) && p < NPROC && s.procs[p].state == Runnable && !s.procs[p].inQueue
    ensures s.procs[p].priority < LEVELS && Inv(Enqueue(s, p))
  {
    assert ProcOk(s, p);
    var t, l := Enqueue(s, p), s.procs[p].priority;
    assert QueueOk(s, l);
    assert p !in s.q[l];
    forall i | 0 <= i < LEVELS ensures QueueOk(t, i) {
      assert QueueOk(s, i);
    }
    forall r | 0 <= r < NPROC ensures ProcOk(t, r) {
      assert ProcOk(s, r);
    }
  }

  /** The processes below n that are runnable and in no queue are enqueued. */
  function QueueAll(s: Sched, n: nat): Sched
    requires Inv(s) && n <= NPROC
    ensures Inv(QueueAll(s, n))
  {
    if n == 0 then s
    else
      var t := QueueAll(s, n - 1);
      if t.procs[n-1].state == Runnable && !t.procs[n-1].inQueue then
        EnqueueInv(t, n - 1);
        Enqueue(t, n - 1)
      else t
  }

  /** The process at index k of its queue leaves it. */
  function Leave(s: Sched, i: nat, k: nat, x: Proc): Sched
    requires i < |s.q| && k < |s.q[i]| && s.q[i][k] < |s.procs|
  {
    Sched(s.procs[s.q[i][k] := x], s.q[i := Without(s.q[i], k)])
  }

  lemma WithoutHas<T>(x: seq<T>, k: nat, e: T)
    requires k < |x|
    ensures e in Without(x, k) ==> e in x
    ensures e in x && e != x[k] ==> e in Without(x, k)
  {
    if e in x && e != x[k] {
      var j :| 0 <= j < |x| && x[j] == e;
      assert if j < k then Without(x, k)[j] == e else Without(x, k)[j-1] == e;
    }
  }

  lemma LeaveQueue(s: Sched, i: nat, k: nat, x: Proc, j: nat)
    requires Inv(s) && i < LEVELS && k < |s.q[i]| && s.q[i][k] < NPROC && j < LEVELS
    ensures QueueOk(Leave(s, i, k, x), j)
  {
    assert QueueOk(s, i) && QueueOk(s, j);
    var t, p := Leave(s, i, k, x), s.q[i][k];
    assert p in s.q[i];
    forall r | r in t.q[j] ensures r < NPROC && t.procs[r].priority == j && t.procs[r].inQueue {
      if i == j {
        WithoutHas(s.q[i], k, r);
      }
    }
  }

  lemma LeaveInv(s: Sched, i: nat, k: nat, x: Proc)
    requires Inv(s) && i < LEVELS && k < |s.q[i]| && s.q[i][k] < NPROC
    requires !x.inQueue && x.priority < LEVELS && x.pid == s.procs[s.q[i][k]].pid && x.state != Unused
    ensures Inv(Leave(s, i, k, x))
  {
    var t, p := Leave(s, i, k, x), s.q[i][k];
    assert QueueOk(s, i) && p in s.q[i] && ProcOk(s, p);
    forall j | 0 <= j < LEVELS ensures QueueOk(t, j) {
      LeaveQueue(s, i, k, x, j);
    }
    forall r | 0 <= r < NPROC ensures ProcOk(t, r) {
      assert ProcOk(s, r);
      WithoutHas(s.q[i], k, r);
    }
  }

  /** A field of a process that is in no queue changes. */
  lemma SetInv(s: Sched, p: nat, x: Proc)
    requires Inv(s) && p < NPROC && x.priority < LEVELS && x.inQueue == s.procs[p].inQueue
    requires x.inQueue ==> x.state == Runnable && x.priority == s.procs[p].priority && x.wtime < AGE && x.rtime == 0
    requires x.state != Unused ==> forall r :: 0 <= r < NPROC && r != p && s.procs[r].state != Unused ==>
             s.procs[r].pid != x.pid
    ensures Inv(SetProc(s, p, x))
  {
    var t := SetProc(s, p, x);
    assert ProcOk(s, p);
    forall i | 0 <= i < LEVELS ensures QueueOk(t, i) {
      assert QueueOk(s, i);
    }
    forall r | 0 <= r < NPROC ensures ProcOk(t, r) {
      assert ProcOk(s, r);
    }
  }

  lemma OwnPid(s: Sched, p: nat)
    requires Inv(s) && p < NPROC && s.procs[p].state != Unused
    ensures forall r :: 0 <= r < NPROC && r != p && s.procs[r].state != Unused ==> s.procs[r].pid != s.procs[p].pid
  {
  }

  // ---------- the scheduler's pass ----------

  lemma {:induction false} AllQueued(s: Sched, n: nat)
    requires Inv(s) && n <= NPROC
    ensures var t := QueueAll(s, n);
            forall p :: 0 <= p < NPROC ==>
                t.procs[p].state == s.procs[p].state && t.procs[p].pid == s.procs[p].pid &&
                t.procs[p].priority == s.procs[p].priority
    ensures forall p :: 0 <= p < n && s.procs[p].state == Runnable ==> QueueAll(s, n).procs[p].inQueue
    ensures forall p :: 0 <= p < NPROC && (p >= n || s.procs[p].inQueue || s.procs[p].state != Runnable) ==>
            QueueAll(s, n).procs[p] == s.procs[p]
  {
    if n > 0 {
      AllQueued(s, n - 1);
    }
  }

  /** The lowest-numbered queue that is not empty, or LEVELS. */
  function Lowest(q: seq<seq<nat>>, i: nat): (l: nat)
    requires i <= |q|
    ensures i <= l <= |q| && (l < |q| ==> q[l] != []) && forall j :: i <= j < l ==> q[j] == []
    decreases |q| - i
  {
    if i == |q| || q[i] != [] then i else Lowest(q, i + 1)
  }

  /** One pass: queue what can run, then run the front of the lowest-numbered queue. */
  function Pass(s: Sched): (t: Sched)
    requires Inv(s)
    ensures Shape(t)
  {
    var t := QueueAll(s, NPROC);
    var l := Lowest(t.q, 0);
    if l == LEVELS then t
    else
      assert QueueOk(t, l) && t.q[l][0] in t.q[l];
      Leave(t, l, 0, t.procs[t.q[l][0]].(inQueue := false, state := Running))
  }

  lemma PassInv(s: Sched)
    requires Inv(s)
    ensures Inv(Pass(s))
  {
    var t := QueueAll(s, NPROC);
    var l := Lowest(t.q, 0);
    if l < LEVELS {
      assert QueueOk(t, l) && t.q[l][0] in t.q[l] && ProcOk(t, t.q[l][0]);
      LeaveInv(t, l, 0, t.procs[t.q[l][0]].(inQueue := false, state := Running));
    }
  }

  /** The pass runs nothing only when nothing is runnable; otherwise it runs a runnable process of
      the best level that any runnable process has, the one that has been queued there longest. */
  lemma PassChoice(s: Sched)
    requires Inv(s)
    ensures var t := QueueAll(s, NPROC); var l := Lowest(t.q, 0);
            && (l == LEVELS <==> forall p :: 0 <= p < NPROC ==> s.procs[p].state != Runnable)
            && (l < LEVELS ==>
                  var r := t.q[l][0];
                  && r < NPROC && s.procs[r].state == Runnable && Pass(s).procs[r].state == Running &&
                     !Pass(s).procs[r].inQueue
                  && Pass(s).q == t.q[l := t.q[l][1..]]
                  && (forall p :: 0 <= p < NPROC && s.procs[p].state == Runnable ==>
                       s.procs[r].priority <= s.procs[p].priority)
                  && (forall p :: 0 <= p < NPROC && p != r ==> Pass(s).procs[p] == t.procs[p]))
  {
    AllQueued(s, NPROC);
    var t := QueueAll(s, NPROC);
    var l := Lowest(t.q, 0);
    forall p | 0 <= p < NPROC && s.procs[p].state == Runnable ensures l <= s.procs[p].priority < LEVELS {
      assert ProcOk(t, p) && t.procs[p].inQueue;
    }
    if l < LEVELS {
      assert QueueOk(t, l) && t.q[l][0] in t.q[l] && ProcOk(t, t.q[l][0]);
      assert Without(t.q[l], 0) == t.q[l][1..];
    }
  }

  // ---------- the clock tick ----------

  function IndexOf(l: seq<nat>, p: nat): (k: nat)
    requires p in l
    ensures k < |l| && l[k] == p && forall j :: 0 <= j < k ==> l[j] != p
  {
    if l[0] == p then 0 else 1 + IndexOf(l[1..], p)
  }

  /** The process after AGE ticks of waiting: promoted, and in no queue. */
  function Promoted(x: Proc): Proc {
    x.(inQueue := false, priority := if x.priority != 0 then x.priority - 1 else 0)
  }

  /** update_time for one process */
  function TickProc(s: Sched, p: nat): Sched
    requires Inv(s) && p < NPROC
  {
    var x := s.procs[p];
    assert ProcOk(s, p);
    if x.state == Running then SetProc(s, p, x.(rtime := x.rtime + 1))
    else if x.state != Runnable then s
    else if x.wtime + 1 < AGE then SetProc(s, p, x.(wtime := x.wtime + 1))
    else if x.inQueue then Leave(s, x.priority, IndexOf(s.q[x.priority], p), Promoted(x.(wtime := 0)))
    else SetProc(s, p, Promoted(x.(wtime := x.wtime + 1)))
  }

  lemma TickProcInv(s: Sched, p: nat)
    requires Inv(s) && p < NPROC
    ensures Inv(TickProc(s, p))
  {
    var x := s.procs[p];
    assert ProcOk(s, p);
    if x.state == Runnable && x.wtime + 1 >= AGE && x.inQueue {
      LeaveInv(s, x.priority, IndexOf(s.q[x.priority], p), Promoted(x.(wtime := 0)));
    } else if x.state == Running || x.state == Runnable {
      OwnPid(s, p);
      SetInv(s, p, TickProc(s, p).procs[p]);
    }
  }

  /** update_time for the processes below n */
  function TickAll(s: Sched, n: nat): (t: Sched)
    requires Inv(s) && n <= NPROC
    ensures Inv(t)
  {
    if n == 0 then s
    else
      var t := TickAll(s, n - 1);
      TickProcInv(t, n - 1);
      TickProc(t, n - 1)
  }

  /** What a tick does to one process, whatever it does to the others. */
  lemma {:induction false} TickedProc(s: Sched, n: nat, p: nat)
    requires Inv(s) && n <= NPROC && p < NPROC
    ensures TickAll(s, n).procs[p] == if p < n then TickProc(s, p).procs[p] else s.procs[p]
  {
    if n > 0 {
      TickedProc(s, n - 1, p);
      var t := TickAll(s, n - 1);
      assert ProcOk(t, n - 1) && ProcOk(s, p);
    }
  }

  // ---------- the interrupted process ----------

  /** priority_levels: the ticks that a process of each level may run. */
  function Slice(level: nat): nat {
    if level == 0 then 1 else if level == 1 then 2 else if level == 2 then 4 else if level == 3 then 8 else 16
  }

  /** The timer part of usertrap and kerneltrap for the running process p, up to the first yield:
      a process that used up its slice is demoted and yields, and one yields to any better queue. */
  function Trap(s: Sched, p: nat, user: bool): Sched
    requires p < |s.procs|
  {
    var x := s.procs[p];
    if x.rtime >= Slice(x.priority) then
      var y := x.(priority := if x.priority != 4 then x.priority + 1 else 4, state := Runnable);
      SetProc(s, p, if user then y.(rtime := 0, wtime := 0) else y)
    else if exists i :: 0 <= i < x.priority && i < |s.q| && s.q[i] != [] then SetProc(s, p, x.(state := Runnable))
    else s
  }

  // ---------- runs ----------

  /** The steps of the scheduler and of the processes. Slots are process-table indices. */
  datatype Step =
    | Schedule
    | Tick
    | Timer(p: nat, user: bool)
    | Yield(p: nat)
    | Sleep(p: nat)
    | Wake(p: nat)
    | Allocate(p: nat, pid: nat)
    | Start(p: nat)
    | Exit(p: nat)
    | Reap(p: nat)

  predicate Allowed(s: Sched, e: Step)
    requires Shape(s)
  {
    match e
    case Schedule => forall p :: 0 <= p < NPROC ==> s.procs[p].state != Running
    case Tick => true
    case Timer(p, _) => p < NPROC && s.procs[p].state == Running
    case Yield(p) => p < NPROC && s.procs[p].state == Running
    case Sleep(p) => p < NPROC && s.procs[p].state == Running
    case Wake(p) => p < NPROC && s.procs[p].state == Sleeping
    case Allocate(p, pid) => p < NPROC && s.procs[p].state == Unused && forall r ::
        0 <= r < NPROC && s.procs[r].state != Unused ==> s.procs[r].pid != pid
    case Start(p) => p < NPROC && s.procs[p].state == Used
    case Exit(p) => p < NPROC && s.procs[p].state == Running
    case Reap(p) => p < NPROC && (s.procs[p].state == Zombie || s.procs[p].state == Used)
  }

  function Next(s: Sched, e: Step): (t: Sched)
    requires Inv(s) && Allowed(s, e)
    ensures Shape(t)
  {
    match e
    case Schedule => Pass(s)
    case Tick => TickAll(s, NPROC)
    case Timer(p, user) => Trap(s, p, user)
    case Yield(p) => SetProc(s, p, s.procs[p].(state := Runnable))
    case Sleep(p) => SetProc(s, p, s.procs[p].(state := Sleeping))
    case Wake(p) => SetProc(s, p, s.procs[p].(state := Runnable))
    case Allocate(p, pid) => SetProc(s, p, Proc(pid, Used, 0, false, 0, 0))
    case Start(p) => SetProc(s, p, s.procs[p].(state := Runnable))
    case Exit(p) => SetProc(s, p, s.procs[p].(state := Zombie))
    case Reap(p) => SetProc(s, p, s.procs[p].(state := Unused, pid := 0))
  }

  lemma NextInv(s: Sched, e: Step)
    requires Inv(s) && Allowed(s, e)
    ensures Inv(Next(s, e))
  {
    if e.Schedule? {
      PassInv(s);
    } else if !e.Tick? {
      assert ProcOk(s, e.p);
      if !e.Allocate? {
        OwnPid(s, e.p);
      }
      SetInv(s, e.p, Next(s, e).procs[e.p]);
      assert Next(s, e) == SetProc(s, e.p, Next(s, e).procs[e.p]);
    }
  }

  /** es is a run that is possible from s. */
  predicate Legal(s: Sched, es: seq<Step>)
    requires Inv(s)
    decreases |es|
  {
    es == [] || (Allowed(s, es[0]) && (NextInv(s, es[0]); Legal(Next(s, es[0]), es[1..])))
  }

  /** The state after the run: whatever happens, the queues are in order. */
  function After(s: Sched, es: seq<Step>): (t: Sched)
    requires Inv(s) && Legal(s, es)
    ensures Inv(t)
    decreases |es|
  {
    if es == [] then s else NextInv(s, es[0]); After(Next(s, es[0]), es[1..])
  }

  /** The state after boot: no process, empty queues. */
  function Boot(): Sched {
    Sched(seq(NPROC, _ => Proc(0, Unused, 0, false, 0, 0)), seq(LEVELS, _ => []))
  }

  lemma BootInv()
    ensures Inv(Boot())
  {
  }

  /** In every run from boot, in_queue is set exactly for the processes that are in the queue of their
      level, once and in no other queue; queued processes are runnable and have waited less than
      AGE ticks; and there is room for every process that is not queued. */
  lemma EveryRun(es: seq<Step>, p: nat)
    requires p < NPROC && (BootInv(); Legal(Boot(), es))
    ensures var s := (BootInv(); After(Boot(), es)); var x := s.procs[p];
            && x.priority < LEVELS && (x.inQueue <==> p in s.q[x.priority]) && Distinct(s.q[x.priority])
            && (forall i :: 0 <= i < LEVELS && p in s.q[i] ==> i == x.priority)
            && (x.inQueue ==> x.state == Runnable && x.wtime < AGE)
            && (!x.inQueue ==> |s.q[x.priority]| < NPROC)
  {
    BootInv();
    var s := After(Boot(), es);
    Membership(s, p);
    assert ProcOk(s, p) && QueueOk(s, s.procs[p].priority);
    if !s.procs[p].inQueue {
      Room(s, p);
    }
  }

  // ---------- aging ----------

  /** p is runnable, and not running, throughout the run. */
  predicate Waits(s: Sched, es: seq<Step>, p: nat)
    requires Inv(s) && Legal(s, es) && p < NPROC
    decreases |es|
  {
    s.procs[p].state == Runnable && (es != [] ==> (NextInv(s, es[0]); Waits(Next(s, es[0]), es[1..], p)))
  }

  /** The ticks of the run at which p was in a queue. */
  function QueuedTicks(s: Sched, es: seq<Step>, p: nat): nat
    requires Inv(s) && Legal(s, es) && p < NPROC
    decreases |es|
  {
    if es == [] then 0
    else
      NextInv(s, es[0]);
      (if es[0].Tick? && s.procs[p].inQueue then 1 else 0) + QueuedTicks(Next(s, es[0]), es[1..], p)
  }

  /** Grows by one with every tick in a queue; AGE of them make one level. */
  function Credit(x: Proc): int {
    AGE * (LEVELS - x.priority) + (if x.inQueue then x.wtime else 0)
  }

  lemma ScheduleOther(s: Sched, p: nat)
    requires Inv(s) && p < NPROC && s.procs[p].state == Runnable && Pass(s).procs[p].state == Runnable
    ensures var y := Pass(s).procs[p];
            y.priority == s.procs[p].priority && y.inQueue &&
            y.wtime == if s.procs[p].inQueue then s.procs[p].wtime else 0
  {
    AllQueued(s, NPROC);
    PassChoice(s);
    QueuedFresh(s, NPROC, p);
  }

  lemma {:induction false} QueuedFresh(s: Sched, n: nat, p: nat)
    requires Inv(s) && p < NPROC && n <= NPROC && s.procs[p].state == Runnable
    ensures var y := QueueAll(s, n).procs[p];
            if p >= n || s.procs[p].inQueue then y == s.procs[p]
            else y.wtime == 0 && y.inQueue && y.priority == s.procs[p].priority
  {
    if n > 0 {
      QueuedFresh(s, n - 1, p);
      AllQueued(s, n - 1);
    }
  }

  lemma CreditGrows(s: Sched, e: Step, p: nat)
    requires Inv(s) && Allowed(s, e) && p < NPROC && s.procs[p].state == Runnable &&
             Next(s, e).procs[p].state == Runnable
    ensures var x, y := s.procs[p], Next(s, e).procs[p];
            && y.priority <= x.priority
            && (y.priority == 0 || Credit(y) >= Credit(x) + (if e.Tick? && x.inQueue then 1 else 0))
  {
    assert ProcOk(s, p);
    if e.Schedule? {
      ScheduleOther(s, p);
    } else if e.Tick? {
      TickedProc(s, NPROC, p);
    }
  }

  lemma {:induction false} CreditRun(s: Sched, es: seq<Step>, p: nat)
    requires Inv(s) && p < NPROC && Legal(s, es) && Waits(s, es, p)
    ensures var x, y := s.procs[p], After(s, es).procs[p];
            && y.priority <= x.priority
            && (y.priority == 0 || Credit(y) >= Credit(x) + QueuedTicks(s, es, p))
    decreases |es|
  {
    if es != [] {
      NextInv(s, es[0]);
      CreditGrows(s, es[0], p);
      CreditRun(Next(s, es[0]), es[1..], p);
    }
  }

  /** A process that waits, at whatever level, is at level 0 after AGE ticks in a queue per level. */
  lemma Aging(s: Sched, es: seq<Step>, p: nat)
    requires Inv(s) && p < NPROC && Legal(s, es) && Waits(s, es, p) &&
             QueuedTicks(s, es, p) >= AGE * s.procs[p].priority
    ensures After(s, es).procs[p].priority == 0
  {
    CreditRun(s, es, p);
    assert ProcOk(After(s, es), p) && ProcOk(s, p);
  }

  /** p is in its queue throughout the run. */
  predicate StaysQueued(s: Sched, es: seq<Step>, p: nat)
    requires Inv(s) && Legal(s, es) && p < NPROC
    decreases |es|
  {
    s.procs[p].inQueue && (es != [] ==> (NextInv(s, es[0]); StaysQueued(Next(s, es[0]), es[1..], p)))
  }

  /** While a process stays queued, curr_wtime counts the ticks. */
  lemma {:induction false} WaitCounts(s: Sched, es: seq<Step>, p: nat)
    requires Inv(s) && p < NPROC && Legal(s, es) && StaysQueued(s, es, p)
    ensures After(s, es).procs[p].wtime == s.procs[p].wtime + QueuedTicks(s, es, p)
    decreases |es|
  {
    if es != [] {
      assert ProcOk(s, p);
      NextInv(s, es[0]);
      if es[0].Schedule? {
        assert ProcOk(Pass(s), p);
        ScheduleOther(s, p);
      } else if es[0].Tick? {
        TickedProc(s, NPROC, p);
      }
      WaitCounts(Next(s, es[0]), es[1..], p);
    }
  }

  function Max(a: int, b: int): int {
    if a < b then b else a
  }

  /** A process that came into its queue with the whole wait before it keeps its level there for 29 ticks, and
      with the thirtieth it leaves the queue for the next better level, if there is one. */
  lemma AgingExact(s: Sched, es: seq<Step>, p: nat, t: Sched)
    requires Inv(s) && p < NPROC && s.procs[p].wtime == 0 && Legal(s, es) && StaysQueued(s, es, p)
    requires t == Next(After(s, es), Tick)
    ensures QueuedTicks(s, es, p) < 30 && After(s, es).procs[p].priority == s.procs[p].priority
    ensures if QueuedTicks(s, es, p) < 29 then t.procs[p].inQueue && t.procs[p].priority == s.procs[p].priority
            else !t.procs[p].inQueue && t.procs[p].priority == Max(s.procs[p].priority - 1, 0)
  {
    WaitCounts(s, es, p);
    QueuedLevel(s, es, p);
    assert ProcOk(After(s, es), p);
    TickedProc(After(s, es), NPROC, p);
  }

  lemma {:induction false} QueuedLevel(s: Sched, es: seq<Step>, p: nat)
    requires Inv(s) && p < NPROC && Legal(s, es) && StaysQueued(s, es, p)
    ensures After(s, es).procs[p].priority == s.procs[p].priority && After(s, es).procs[p].inQueue
    decreases |es|
  {
    if es != [] {
      assert ProcOk(s, p);
      NextInv(s, es[0]);
      if es[0].Schedule? {
        assert ProcOk(Pass(s), p);
        ScheduleOther(s, p);
      } else if es[0].Tick? {
        TickedProc(s, NPROC, p);
      }
      QueuedLevel(Next(s, es[0]), es[1..], p);
    }
  }

  // ---------- slices ----------

  /** p runs throughout the run. */
  predicate Runs(s: Sched, es: seq<Step>, p: nat)
    requires Inv(s) && Legal(s, es) && p < NPROC
    decreases |es|
  {
    s.procs[p].state == Running && (es != [] ==> (NextInv(s, es[0]); Runs(Next(s, es[0]), es[1..], p)))
  }

  function Ticks(es: seq<Step>): nat {
    if es == [] then 0 else (if es[0].Tick? then 1 else 0) + Ticks(es[1..])
  }

  /** A process that the scheduler runs has its whole slice before it. */
  lemma Dispatched(s: Sched, p: nat)
    requires Inv(s) && p < NPROC && s.procs[p].state != Running && Pass(s).procs[p].state == Running
    ensures Pass(s).procs[p].rtime == 0 && Pass(s).procs[p].priority == s.procs[p].priority
  {
    AllQueued(s, NPROC);
    PassChoice(s);
    assert ProcOk(QueueAll(s, NPROC), p);
  }

  /** While it runs, curr_rtime counts the ticks, and its level stays. */
  lemma {:induction false} RunCounts(s: Sched, es: seq<Step>, p: nat)
    requires Inv(s) && p < NPROC && Legal(s, es) && Runs(s, es, p)
    ensures var x, y := s.procs[p], After(s, es).procs[p];
            y.state == Running && y.rtime == x.rtime + Ticks(es) && y.priority == x.priority
    decreases |es|
  {
    if es != [] {
      NextInv(s, es[0]);
      if es[0].Tick? {
        TickedProc(s, NPROC, p);
      }
      RunCounts(Next(s, es[0]), es[1..], p);
    }
  }

  /** A process that is dispatched and then runs through es: at the next timer interrupt it has used up its slice
      exactly when es has 1, 2, 4, 8 or 16 ticks, for its level, and then it is one level down, but not below the
      last, and has given up the processor. Before that it keeps its level, and gives up exactly when a better
      queue is not empty. Nothing else changes. */
  lemma Demotion(s0: Sched, s: Sched, es: seq<Step>, p: nat, user: bool, t: Sched, u: Sched)
    requires Inv(s0) && p < NPROC && s0.procs[p].state != Running && s == Pass(s0) && Inv(s) && Legal(s, es)
    requires Runs(s, es, p) && t == After(s, es) && u == Trap(t, p, user)
    ensures Allowed(t, Timer(p, user)) && u == Next(t, Timer(p, user))
    ensures var l := s0.procs[p].priority;
            && l < LEVELS && u.q == t.q && (forall r :: 0 <= r < NPROC && r != p ==> u.procs[r] == t.procs[r])
            && if Ticks(es) >= [1, 2, 4, 8, 16][l] then
                 u.procs[p].state == Runnable && u.procs[p].priority == if l < 4 then l + 1 else 4
               else
                 && u.procs[p].priority == l
                 && (u.procs[p].state == Runnable <==> exists i :: 0 <= i < l && t.q[i] != [])
                 && (u.procs[p].state != Runnable ==> u == t)
  {
    Dispatched(s0, p);
    RunCounts(s, es, p);
    assert ProcOk(s0, p);
  }

  /** Then the next pass puts it into the queue of its level, with a new slice and the whole wait before it. */
  lemma GivenUp(s: Sched, p: nat)
    requires Inv(s) && p < NPROC && s.procs[p].state == Runnable && !s.procs[p].inQueue
    ensures var t := QueueAll(s, NPROC); var x := t.procs[p];
            && x.priority == s.procs[p].priority < LEVELS && x.inQueue && p in t.q[x.priority]
            && x.rtime == 0 && x.wtime == 0
  {
    AllQueued(s, NPROC);
    QueuedFresh(s, NPROC, p);
    assert ProcOk(QueueAll(s, NPROC), p);
  }

  // ---------- levels ----------

  /** A process begins at level 0. After that its level changes only when it has waited for AGE ticks, by one to the
      better, and at a timer interrupt after its slice, by one to the worse; sleep and wakeup leave it where it is. */
  lemma LevelChanges(s: Sched, e: Step, p: nat)
    requires Inv(s) && Allowed(s, e) && p < NPROC
    ensures var x, y := s.procs[p], Next(s, e).procs[p];
            || y.priority == x.priority
            || (e.Tick? && x.state == Runnable && x.wtime + 1 >= AGE && y.priority == x.priority - 1)
            || (e.Timer? && e.p == p && x.rtime >= Slice(x.priority) && y.priority == x.priority + 1)
            || (e.Allocate? && e.p == p)
    ensures e.Allocate? && e.p == p ==> Next(s, e).procs[p].priority == 0 && !Next(s, e).procs[p].inQueue
    ensures s.procs[p].state == Sleeping ==>
              Next(s, e).procs[p] == if e == Wake(p) then s.procs[p].(state := Runnable) else s.procs[p]
  {
    assert ProcOk(s, p);
    if e.Schedule? {
      AllQueued(s, NPROC);
      PassChoice(s);
    } else if e.Tick? {
      TickedProc(s, NPROC, p);
    }
  }

  // ---------- first come, first served ----------

  /** p is in the queue before r. */
  predicate Ahead(l: seq<nat>, p: nat, r: nat) {
    exists i, j :: 0 <= i < j < |l| && l[i] == p && l[j] == r
  }

  lemma AheadLast(l: seq<nat>, p: nat, x: nat, r: nat)
    requires p in l && (x == r || Ahead(l, p, r))
    ensures Ahead(l + [x], p, r)
  {
    if Ahead(l, p, r) {
      var i, j :| 0 <= i < j < |l| && l[i] == p && l[j] == r;
      assert (l + [x])[i] == p && (l + [x])[j] == r;
    } else {
      var i :| 0 <= i < |l| && l[i] == p;
      assert (l + [x])[i] == p && (l + [x])[|l|] == r;
    }
  }

  lemma AheadWithout(l: seq<nat>, k: nat, p: nat, r: nat)
    requires k < |l| && Ahead(l, p, r) && p != l[k] && r != l[k]
    ensures Ahead(Without(l, k), p, r)
  {
    var i, j :| 0 <= i < j < |l| && l[i] == p && l[j] == r;
    var m, n := if i < k then i else i - 1, if j < k then j else j - 1;
    assert Without(l, k)[m] == p && Without(l, k)[n] == r;
  }

  lemma {:induction false} QueueAllAhead(s: Sched, n: nat, l: nat, p: nat, r: nat)
    requires Inv(s) && n <= NPROC && l < LEVELS && p in s.q[l] && p != r && (r in s.q[l] ==> Ahead(s.q[l], p, r))
    ensures var t := QueueAll(s, n); p in t.q[l] && (r in t.q[l] ==> Ahead(t.q[l], p, r))
  {
    if n > 0 {
      QueueAllAhead(s, n - 1, l, p, r);
      var t := QueueAll(s, n - 1);
      if t.procs[n-1].state == Runnable && !t.procs[n-1].inQueue && t.procs[n-1].priority == l &&
         (r == n - 1 || r in t.q[l])
      {
        AheadLast(t.q[l], p, n - 1, r);
      }
    }
  }

  lemma {:induction false} TickAllAhead(s: Sched, n: nat, l: nat, p: nat, r: nat)
    requires Inv(s) && n <= NPROC && l < LEVELS && p != r && p in TickAll(s, n).q[l] && r in TickAll(s, n).q[l]
    ensures p in s.q[l] && r in s.q[l] && (Ahead(s.q[l], p, r) ==> Ahead(TickAll(s, n).q[l], p, r))
  {
    if n > 0 {
      var t := TickAll(s, n - 1);
      var x := t.procs[n-1];
      assert ProcOk(t, n - 1) && QueueOk(t, l);
      if x.state == Runnable && x.wtime + 1 >= AGE && x.inQueue && x.priority == l {
        var k := IndexOf(t.q[l], n - 1);
        WithoutHas(t.q[l], k, p);
        WithoutHas(t.q[l], k, r);
        WithoutOnce(t.q[l], k);
        if Ahead(t.q[l], p, r) {
          AheadWithout(t.q[l], k, p, r);
        }
      }
      TickAllAhead(s, n - 1, l, p, r);
    }
  }

  lemma PassAhead(s: Sched, l: nat, p: nat, r: nat)
    requires Inv(s) && l < LEVELS && p in s.q[l] && p != r && (r in s.q[l] ==> Ahead(s.q[l], p, r))
    requires p in Pass(s).q[l] && r in Pass(s).q[l]
    ensures Ahead(Pass(s).q[l], p, r)
  {
    QueueAllAhead(s, NPROC, l, p, r);
    PassChoice(s);
    var t := QueueAll(s, NPROC);
    if Lowest(t.q, 0) == l {
      assert QueueOk(t, l);
      WithoutHas(t.q[l], 0, r);
      WithoutOnce(t.q[l], 0);
      assert Without(t.q[l], 0) == t.q[l][1..];
      AheadWithout(t.q[l], 0, p, r);
    }
  }

  /** Who is in a queue is and stays before all who come into it later. */
  lemma FirstCome(s: Sched, e: Step, l: nat, p: nat, r: nat)
    requires Inv(s) && Allowed(s, e) && l < LEVELS && p != r && p in s.q[l] && (r in s.q[l] ==> Ahead(s.q[l], p, r))
    requires p in Next(s, e).q[l] && r in Next(s, e).q[l]
    ensures Ahead(Next(s, e).q[l], p, r)
  {
    if e.Schedule? {
      PassAhead(s, l, p, r);
    } else if e.Tick? {
      TickAllAhead(s, NPROC, l, p, r);
    }
  }
}
