/** sleep and wakeup of kernel/proc.c for any clients: any number of processes, locks and channels,
    interleaved at every lock operation. The one rule for clients is that of the source: who sleeps on a
    channel and who wakes it up holds the lock that goes with the channel. */
module SleepWakeup {
  import opened Wrappers

  datatype State = Running | Runnable | Sleeping

  /** Where a process is in sleep(c, lk) or wakeup(c); outside both it may do as it likes. */
  datatype Pc =
    | Outside
    | SleepLock(c: nat)           // sleep: about to acquire p->lock
    | SleepRelease(c: nat)        // about to release lk
    | SleepMark(c: nat)           // about to set p->chan and p->state
    | SleepSched(c: nat)          // about to switch to the scheduler, which releases p->lock
    | Asleep(c: nat)              // in the scheduler's hands
    | Woken(c: nat)               // switched back, with p->lock
    | Reacquire(c: nat)           // about to reacquire lk
    | Wake(c: nat, j: nat)        // wakeup: about to look at process j
    | WakeAt(c: nat, j: nat)      // has the lock of process j

  /** A process; p->lock is held by the process that `lock` names. */
  datatype Proc = Proc(pc: Pc, state: State, chan: Option<nat>, lock: Option<nat>)

  /** lockOf is the lock of each channel, and locks says who has each lock. */
  datatype Sys = Sys(procs: seq<Proc>, locks: seq<Option<nat>>, lockOf: seq<nat>)

  /** Process p has the lock of channel c. */
  predicate Holds(s: Sys, p: nat, c: nat) {
    c < |s.lockOf| && s.lockOf[c] < |s.locks| && s.locks[s.lockOf[c]] == Some(p)
  }

  /** The process has given up the lock in sleep(c), and has not been woken since. */
  predicate CommittedTo(x: Proc, c: nat) {
    x.pc == SleepMark(c) || (x.state == Sleeping && x.chan == Some(c))
  }

  predicate HasOwn(pc: Pc) {
    pc.SleepRelease? || pc.SleepMark? || pc.SleepSched? || pc.Woken?
  }

  predicate ProcOk(s: Sys, p: nat)
    requires p < |s.procs|
  {
    var x := s.procs[p];
    && (x.pc.Outside? || x.pc.c < |s.lockOf|)
    && (x.pc.SleepLock? || x.pc.SleepRelease? || x.pc.Wake? || x.pc.WakeAt? ==> Holds(s, p, x.pc.c))
    && (HasOwn(x.pc) <==> x.lock == Some(p))
    && (x.lock.Some? && x.lock.value != p ==>
          x.lock.value < |s.procs| && s.procs[x.lock.value].pc.WakeAt? && s.procs[x.lock.value].pc.j == p)
    && (x.pc.WakeAt? ==> x.pc.j < |s.procs| && x.pc.j != p && s.procs[x.pc.j].lock == Some(p))
    && (x.pc.Wake? ==> x.pc.j <= |s.procs|)
    && (x.state == Sleeping ==> x.pc.SleepSched? || x.pc.Asleep?) && (x.pc.SleepSched? ==> x.state == Sleeping)
    && (x.pc.Asleep? ==> x.state != Running)
    && (if x.pc.SleepSched? || x.pc.Asleep? || x.pc.Woken? then x.chan == Some(x.pc.c) else x.chan.None?)
  }

  /** A wakeup(c) of process q that has passed p has left it awake. */
  predicate PassOk(s: Sys, q: nat, p: nat)
    requires p < |s.procs| && q < |s.procs|
  {
    var pc := s.procs[q].pc;
    (pc.Wake? || pc.WakeAt?) && p < pc.j ==> !CommittedTo(s.procs[p], pc.c)
  }

  predicate Inv(s: Sys) {
    && (forall c :: 0 <= c < |s.lockOf| ==> s.lockOf[c] < |s.locks|)
    && (forall p :: 0 <= p < |s.procs| ==> ProcOk(s, p))
    && (forall q, p :: 0 <= q < |s.procs| && 0 <= p < |s.procs| ==> PassOk(s, q, p))
  }

  /** All processes outside, all locks free. */
  function Start(n: nat, m: nat, lockOf: seq<nat>): Sys {
    Sys(seq(n, _ => Proc(Outside, Running, None, None)), seq(m, _ => None), lockOf)
  }

  // ---------- the steps ----------

  /** What happens next: a process outside takes or releases a lock, or calls sleep or wakeup; one inside
      goes on; or somebody kills one. */
  datatype Event =
    | Acquire(p: nat, l: nat)
    | Release(p: nat, l: nat)
    | CallSleep(p: nat, c: nat)
    | CallWakeup(p: nat, c: nat)
    | GoOn(p: nat)
    | Kill(p: nat)

  function At(s: Sys, p: nat, pc: Pc): Sys
    requires p < |s.procs|
  {
    s.(procs := s.procs[p := s.procs[p].(pc := pc)])
  }

  function SetLock(s: Sys, p: nat, l: Option<nat>): Sys
    requires p < |s.procs|
  {
    s.(procs := s.procs[p := s.procs[p].(lock := l)])
  }

  function SetState(s: Sys, p: nat, st: State): Sys
    requires p < |s.procs|
  {
    s.(procs := s.procs[p := s.procs[p].(state := st)])
  }

  function Give(s: Sys, l: nat, to: Option<nat>): Sys
    requires l < |s.locks|
  {
    s.(locks := s.locks[l := to])
  }

  predicate Enabled(s: Sys, p: nat)
    requires p < |s.procs|
  {
    match s.procs[p].pc
    case Outside => false
    case SleepLock(_) => s.procs[p].lock.None?
    case Asleep(_) => s.procs[p].state == Runnable && s.procs[p].lock.None?
    case Reacquire(c) => c < |s.lockOf| && s.lockOf[c] < |s.locks| && s.locks[s.lockOf[c]].None?
    case Wake(_, j) => j < |s.procs| && j != p ==> s.procs[j].lock.None?
    case _ => true
  }

  predicate Possible(s: Sys, e: Event) {
    && e.p < |s.procs|
    && match e
       case Acquire(p, l) => s.procs[p].pc.Outside? && l < |s.locks| && s.locks[l].None?
       case Release(p, l) => s.procs[p].pc.Outside? && l < |s.locks| && s.locks[l] == Some(p)
       case CallSleep(p, c) => s.procs[p].pc.Outside? && Holds(s, p, c)
       case CallWakeup(p, c) => s.procs[p].pc.Outside? && Holds(s, p, c)
       case GoOn(p) => Enabled(s, p)
       case Kill(p) => s.procs[p].lock.None?
  }

  function Step(s: Sys, p: nat): Sys
    requires Inv(s) && p < |s.procs| && Enabled(s, p)
  {
    assert ProcOk(s, p);
    match s.procs[p].pc
    case SleepLock(c) => SetLock(At(s, p, SleepRelease(c)), p, Some(p))
    case SleepRelease(c) => Give(At(s, p, SleepMark(c)), s.lockOf[c], None)
    case SleepMark(c) => s.(procs := s.procs[p := s.procs[p].(pc := SleepSched(c), chan := Some(c), state := Sleeping)])
    case SleepSched(c) => SetLock(At(s, p, Asleep(c)), p, None)
    case Asleep(c) => SetState(SetLock(At(s, p, Woken(c)), p, Some(p)), p, Running)
    case Woken(c) => s.(procs := s.procs[p := s.procs[p].(pc := Reacquire(c), chan := None, lock := None)])
    case Reacquire(c) => Give(At(s, p, Outside), s.lockOf[c], Some(p))
    case Wake(c, j) =>
      if j == |s.procs| then At(s, p, Outside)
      else if j == p then At(s, p, Wake(c, j + 1))
      else SetLock(At(s, p, WakeAt(c, j)), j, Some(p))
    case WakeAt(c, j) =>
      var t := if s.procs[j].state == Sleeping && s.procs[j].chan == Some(c) then SetState(s, j, Runnable) else s;
      SetLock(At(t, p, Wake(c, j + 1)), j, None)
  }

  function Next(s: Sys, e: Event): Sys
    requires Inv(s) && Possible(s, e)
  {
    match e
    case Acquire(p, l) => Give(s, l, Some(p))
    case Release(p, l) => Give(s, l, None)
    case CallSleep(p, c) => At(s, p, SleepLock(c))
    case CallWakeup(p, c) => At(s, p, Wake(c, 0))
    case GoOn(p) => Step(s, p)
    case Kill(p) => if s.procs[p].state == Sleeping then SetState(s, p, Runnable) else s
  }

  // ---------- what every step keeps ----------

  /** A step other than those of wakeup changes only the process that takes it, and only locks that are
      free or its own. */
  predicate OwnChange(s: Sys, t: Sys, p: nat)
    requires p < |s.procs|
  {
    && |t.procs| == |s.procs| && t.procs == s.procs[p := t.procs[p]] && t.lockOf == s.lockOf && |t.locks| == |s.locks|
    && (forall l :: 0 <= l < |s.locks| && s.locks[l].Some? && s.locks[l].value != p ==> t.locks[l] == s.locks[l])
    && (t.procs[p].lock == s.procs[p].lock || s.procs[p].lock == None || s.procs[p].lock == Some(p))
    && !s.procs[p].pc.WakeAt? && !t.procs[p].pc.WakeAt?
  }

  lemma OwnProc(s: Sys, t: Sys, p: nat, r: nat)
    requires Inv(s) && p < |s.procs| && r < |s.procs| && r != p && OwnChange(s, t, p)
    ensures ProcOk(t, r)
  {
    assert ProcOk(s, p) && ProcOk(s, r);
  }

  predicate IsWake(e: Event, s: Sys) {
    e.GoOn? && e.p < |s.procs| && (s.procs[e.p].pc.Wake? || s.procs[e.p].pc.WakeAt?)
  }

  lemma StepIsOwn(s: Sys, e: Event)
    requires Inv(s) && Possible(s, e) && !IsWake(e, s) && !e.Kill?
    ensures OwnChange(s, Next(s, e), e.p)
  {
    assert ProcOk(s, e.p);
  }

  lemma SelfProc(s: Sys, e: Event)
    requires Inv(s) && Possible(s, e) && !IsWake(e, s) && !e.Kill?
    ensures |Next(s, e).procs| == |s.procs| && ProcOk(Next(s, e), e.p)
  {
    assert ProcOk(s, e.p);
  }

  lemma WakeProc(s: Sys, p: nat, r: nat)
    requires Inv(s) && p < |s.procs| && Enabled(s, p) && r < |s.procs| && s.procs[p].pc.Wake?
    ensures |Step(s, p).procs| == |s.procs| && ProcOk(Step(s, p), r)
  {
    assert ProcOk(s, p) && ProcOk(s, r);
    if s.procs[p].pc.j < |s.procs| {
      assert ProcOk(s, s.procs[p].pc.j);
    }
  }

  /** What wakeup(c) of process p does when it has the lock of process j. */
  predicate Woke(s: Sys, p: nat, c: nat, j: nat, t: Sys) {
    && p < |s.procs| && j < |s.procs| && j != p && |t.procs| == |s.procs| && t.locks == s.locks && t.lockOf == s.lockOf
    && s.procs[p].pc == WakeAt(c, j) && t.procs[p] == s.procs[p].(pc := Wake(c, j + 1))
    && s.procs[j].lock == Some(p) && t.procs[j].lock.None?
    && t.procs[j].pc == s.procs[j].pc && t.procs[j].chan == s.procs[j].chan
    && t.procs[j].state ==
       (if s.procs[j].state == Sleeping && s.procs[j].chan == Some(c) then Runnable else s.procs[j].state)
    && forall r :: 0 <= r < |s.procs| && r != p && r != j ==> t.procs[r] == s.procs[r]
  }

  lemma WakeAtIs(s: Sys, p: nat)
    requires Inv(s) && p < |s.procs| && s.procs[p].pc.WakeAt?
    ensures Woke(s, p, s.procs[p].pc.c, s.procs[p].pc.j, Step(s, p))
  {
    assert ProcOk(s, p);
  }

  lemma WokeProc(s: Sys, p: nat, c: nat, j: nat, t: Sys, r: nat)
    requires Inv(s) && Woke(s, p, c, j, t) && r < |s.procs|
    ensures ProcOk(t, r)
  {
    assert ProcOk(s, p) && ProcOk(s, r) && ProcOk(s, j);
  }

  lemma WakeAtProc(s: Sys, p: nat, r: nat)
    requires Inv(s) && p < |s.procs| && r < |s.procs| && s.procs[p].pc.WakeAt?
    ensures |Step(s, p).procs| == |s.procs| && ProcOk(Step(s, p), r)
  {
    WakeAtIs(s, p);
    WokeProc(s, p, s.procs[p].pc.c, s.procs[p].pc.j, Step(s, p), r);
  }

  lemma NextProc(s: Sys, e: Event, r: nat)
    requires Inv(s) && Possible(s, e) && r < |s.procs|
    ensures |Next(s, e).procs| == |s.procs| && ProcOk(Next(s, e), r)
  {
    if IsWake(e, s) {
      if s.procs[e.p].pc.Wake? {
        WakeProc(s, e.p, r);
      } else {
        WakeAtProc(s, e.p, r);
      }
    } else if e.Kill? {
      assert ProcOk(s, r) && ProcOk(s, e.p);
    } else if r == e.p {
      SelfProc(s, e);
    } else {
      StepIsOwn(s, e);
      OwnProc(s, Next(s, e), e.p, r);
    }
  }

  /** Who gives up the lock of a channel to sleep on it does so while nobody is in a wakeup of it. */
  lemma OwnPass(s: Sys, e: Event, q: nat, r: nat)
    requires Inv(s) && Possible(s, e) && q < |s.procs| && r < |s.procs| && !IsWake(e, s) && !e.Kill?
    ensures |Next(s, e).procs| == |s.procs| && PassOk(Next(s, e), q, r)
  {
    StepIsOwn(s, e);
    assert ProcOk(s, e.p) && ProcOk(s, q) && PassOk(s, q, r);
  }

  lemma WakePass(s: Sys, p: nat, q: nat, r: nat)
    requires Inv(s) && p < |s.procs| && Enabled(s, p) && q < |s.procs| && r < |s.procs| && s.procs[p].pc.Wake?
    ensures |Step(s, p).procs| == |s.procs| && PassOk(Step(s, p), q, r)
  {
    assert ProcOk(s, p) && PassOk(s, q, r);
  }

  lemma WakeAtPass(s: Sys, p: nat, q: nat, r: nat)
    requires Inv(s) && p < |s.procs| && Enabled(s, p) && q < |s.procs| && r < |s.procs| && s.procs[p].pc.WakeAt?
    ensures |Step(s, p).procs| == |s.procs| && PassOk(Step(s, p), q, r)
  {
    assert ProcOk(s, p) && PassOk(s, q, r);
    assert ProcOk(s, s.procs[p].pc.j);
  }

  lemma NextPass(s: Sys, e: Event, q: nat, r: nat)
    requires Inv(s) && Possible(s, e) && q < |s.procs| && r < |s.procs|
    ensures |Next(s, e).procs| == |s.procs| && PassOk(Next(s, e), q, r)
  {
    if IsWake(e, s) {
      if s.procs[e.p].pc.Wake? {
        WakePass(s, e.p, q, r);
      } else {
        WakeAtPass(s, e.p, q, r);
      }
    } else if e.Kill? {
      assert ProcOk(s, e.p) && PassOk(s, q, r);
    } else {
      OwnPass(s, e, q, r);
    }
  }

  lemma NextInv(s: Sys, e: Event)
    requires Inv(s) && Possible(s, e)
    ensures Inv(Next(s, e))
  {
    var t := Next(s, e);
    assert ProcOk(s, e.p);
    forall r | 0 <= r < |t.procs| ensures ProcOk(t, r) {
      NextProc(s, e, r);
    }
    forall q, r | 0 <= q < |t.procs| && 0 <= r < |t.procs| ensures PassOk(t, q, r) {
      NextPass(s, e, q, r);
    }
  }

  // ---------- what a sleeper is promised ----------

  /** The step wakes process p up: a wakeup of its channel that has got to it, or a kill. */
  predicate Wakes(s: Sys, e: Event, p: nat)
    requires p < |s.procs|
  {
    || e == Kill(p)
    || (e.GoOn? && e.p < |s.procs| && s.procs[p].chan.Some? && s.procs[e.p].pc == WakeAt(s.procs[p].chan.value, p))
  }

  /** A process that sleeps goes on sleeping on its channel until it is woken up, and then it is runnable. */
  lemma AsleepUntilWoken(s: Sys, e: Event, p: nat)
    requires Inv(s) && Possible(s, e) && p < |s.procs| && s.procs[p].state == Sleeping
    ensures |Next(s, e).procs| == |s.procs| && Next(s, e).procs[p].chan == s.procs[p].chan
    ensures Next(s, e).procs[p].state == if Wakes(s, e, p) then Runnable else Sleeping
  {
    assert ProcOk(s, e.p) && ProcOk(s, p);
    if IsWake(e, s) && s.procs[e.p].pc.WakeAt? {
      WakeAtIs(s, e.p);
    }
  }

  predicate InSleep(pc: Pc, c: nat) {
    pc in {SleepLock(c), SleepRelease(c), SleepMark(c), SleepSched(c), Asleep(c), Woken(c), Reacquire(c)}
  }

  /** A process that gave up the lock of a channel to sleep on it returns with the lock. */
  lemma SleepReturns(s: Sys, e: Event, p: nat, c: nat)
    requires Inv(s) && Possible(s, e) && p < |s.procs| && InSleep(s.procs[p].pc, c)
    ensures var t := Next(s, e);
            && |t.procs| == |s.procs| && (InSleep(t.procs[p].pc, c) || (t.procs[p].pc == Outside && Holds(t, p, c)))
            && (t.procs[p].pc == Outside ==> s.procs[p].pc == Reacquire(c))
  {
    assert ProcOk(s, e.p) && ProcOk(s, p);
    if IsWake(e, s) && s.procs[e.p].pc.WakeAt? {
      WakeAtIs(s, e.p);
    }
  }

  // ---------- runs ----------

  lemma StartInv(n: nat, m: nat, lockOf: seq<nat>)
    requires forall c :: 0 <= c < |lockOf| ==> lockOf[c] < m
    ensures Inv(Start(n, m, lockOf))
  {
  }

  predicate Legal(s: Sys, es: seq<Event>)
    requires Inv(s)
    decreases |es|
  {
    es == [] || (Possible(s, es[0]) && (NextInv(s, es[0]); Legal(Next(s, es[0]), es[1..])))
  }

  function After(s: Sys, es: seq<Event>): (t: Sys)
    requires Inv(s) && Legal(s, es)
    ensures Inv(t)
    decreases |es|
  {
    if es == [] then s else (NextInv(s, es[0]); After(Next(s, es[0]), es[1..]))
  }

  /** In every interleaving, when a wakeup of channel c has looked at all processes, nobody is still sleeping
      on c, or on the way to it with the lock given up: no wakeup is lost. */
  lemma NoLostWakeup(s: Sys, es: seq<Event>, q: nat, c: nat, p: nat)
    requires Inv(s) && Legal(s, es)
    ensures var t := After(s, es);
            q < |t.procs| && p < |t.procs| && t.procs[q].pc == Wake(c, |t.procs|) ==> !CommittedTo(t.procs[p], c)
  {
    var t := After(s, es);
    if q < |t.procs| && p < |t.procs| {
      assert PassOk(t, q, p);
    }
  }

  /** No step of the run wakes process p up. */
  predicate LetsSleep(s: Sys, es: seq<Event>, p: nat)
    requires Inv(s) && Legal(s, es) && p < |s.procs|
    decreases |es|
  {
    || es == []
    || (!Wakes(s, es[0], p) && (NextProc(s, es[0], p); NextInv(s, es[0]); LetsSleep(Next(s, es[0]), es[1..], p)))
  }

  /** Nobody is woken up but by a wakeup of the channel or a kill: in every interleaving without these for process
      p, it sleeps on. */
  lemma {:induction false} NoStrayWakeup(s: Sys, es: seq<Event>, p: nat)
    requires Inv(s) && Legal(s, es) && p < |s.procs| && s.procs[p].state == Sleeping && LetsSleep(s, es, p)
    ensures var t := After(s, es);
            |t.procs| == |s.procs| && t.procs[p].state == Sleeping && t.procs[p].chan == s.procs[p].chan
    decreases |es|
  {
    if es != [] {
      AsleepUntilWoken(s, es[0], p);
      NextInv(s, es[0]);
      NoStrayWakeup(Next(s, es[0]), es[1..], p);
    }
  }
}
