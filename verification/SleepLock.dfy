/** kernel/sleeplock.c as a client of sleep and wakeup of kernel/proc.c: any number of processes, interleaved
    at every lock operation, with the sleep lock as the only channel. */
module SleepLock {
  import opened Wrappers
  import W = SleepWakeup

  /** Where a process is in acquiresleep or releasesleep. */
  datatype Place =
    | Away
    | Asking              // acquiresleep: about to acquire lk->lk
    | Looping             // in the loop, with lk->lk or in sleep
    | Taken               // has set lk->locked, about to release lk->lk
    | Holder              // acquiresleep has returned
    | Handing             // releasesleep: about to acquire lk->lk
    | Clearing            // about to clear lk->locked
    | Waking              // in wakeup, or about to release lk->lk

  /** The sleep lock: lk->lk is lock 0, its channel is 0, and owner is lk->pid, which is set while lk->locked is. */
  datatype Sys = Sys(w: W.Sys, at: seq<Place>, locked: bool, owner: Option<nat>)

  /** The process has the sleep lock. */
  predicate Critical(a: Place) {
    a.Taken? || a.Holder? || a.Handing? || a.Clearing?
  }

  predicate InSleep(pc: W.Pc) {
    pc.SleepLock? || pc.SleepRelease? || pc.SleepMark? || pc.SleepSched? || pc.Asleep? || pc.Woken? || pc.Reacquire?
  }

  predicate InWakeup(pc: W.Pc) {
    pc.Wake? || pc.WakeAt?
  }

  predicate HasLk(s: Sys, p: nat) {
    W.Holds(s.w, p, 0)
  }

  /** wakeup has not yet passed p. */
  predicate WillWake(pc: W.Pc, p: nat) {
    InWakeup(pc) && pc.j <= p
  }

  /** The process has given up lk->lk in sleep and has not been woken since. */
  predicate Committed(s: Sys, p: nat)
    requires p < |s.w.procs|
  {
    W.CommittedTo(s.w.procs[p], 0)
  }

  predicate Shape(s: Sys) {
    |s.at| == |s.w.procs| && s.w.lockOf == [0] && |s.w.locks| == 1
  }

  predicate ProcOk(s: Sys, p: nat)
    requires Shape(s) && p < |s.at|
  {
    var a, pc := s.at[p], s.w.procs[p].pc;
    && (pc.Outside? || (a.Looping? && InSleep(pc)) || (a.Waking? && InWakeup(pc)))
    && (a.Taken? || a.Clearing? || a.Waking? || (a.Looping? && pc.Outside?) ==> HasLk(s, p))
    && (HasLk(s, p) ==>
          a.Taken? || a.Clearing? || a.Waking? || (a.Looping? && (pc.Outside? || pc.SleepLock? || pc.SleepRelease?)))
    && (Critical(a) <==> s.owner == Some(p))
    && (pc.SleepLock? || pc.SleepRelease? ==> s.locked) && (a.Waking? ==> !s.locked)
  }

  /** Whoever sleeps, sleeps while the lock is taken or somebody is in wakeup. */
  predicate SleepOk(s: Sys, p: nat)
    requires Shape(s) && p < |s.at|
  {
    Committed(s, p) ==>
      s.locked || (s.w.locks[0].Some? && s.w.locks[0].value < |s.at| && InWakeup(s.w.procs[s.w.locks[0].value].pc))
  }

  predicate Inv(s: Sys) {
    && W.Inv(s.w) && Shape(s) && (s.locked <==> s.owner.Some?) && (s.owner.Some? ==> s.owner.value < |s.at|)
    && (s.w.locks[0].Some? ==> s.w.locks[0].value < |s.at|)
    && (forall p :: 0 <= p < |s.at| ==> ProcOk(s, p))
    && (forall p :: 0 <= p < |s.at| ==> SleepOk(s, p))
  }

  function Start(n: nat): Sys {
    Sys(W.Start(n, 1, [0]), seq(n, _ => Away), false, None)
  }

  // ---------- the steps ----------

  /** What the next step of process p does with lk->lk, sleep and wakeup. */
  function Action(s: Sys, p: nat): Option<W.Event>
    requires Shape(s) && p < |s.at|
  {
    var outside := s.w.procs[p].pc.Outside?;
    match s.at[p]
    case Away => None
    case Asking => Some(W.Acquire(p, 0))
    case Looping => if !outside then Some(W.GoOn(p)) else if s.locked then Some(W.CallSleep(p, 0)) else None
    case Taken => Some(W.Release(p, 0))
    case Holder => None
    case Handing => Some(W.Acquire(p, 0))
    case Clearing => Some(W.CallWakeup(p, 0))
    case Waking => Some(if outside then W.Release(p, 0) else W.GoOn(p))
  }

  /** The process has left the loop: lk->locked is not set. */
  predicate Takes(s: Sys, p: nat)
    requires Shape(s) && p < |s.at|
  {
    s.at[p].Looping? && s.w.procs[p].pc.Outside? && !s.locked
  }

  function Onward(s: Sys, p: nat): Place
    requires Shape(s) && p < |s.at|
  {
    match s.at[p]
    case Away => Asking
    case Asking => Looping
    case Looping => if Takes(s, p) then Taken else Looping
    case Taken => Holder
    case Holder => Handing
    case Handing => Clearing
    case Clearing => Waking
    case Waking => if s.w.procs[p].pc.Outside? then Away else Waking
  }

  predicate Enabled(s: Sys, p: nat)
    requires Shape(s) && p < |s.at|
  {
    Action(s, p).Some? ==> W.Possible(s.w, Action(s, p).value)
  }

  /** The next step of process p. */
  function Step(s: Sys, p: nat): Sys
    requires Inv(s) && p < |s.at| && Enabled(s, p)
  {
    var w := if Action(s, p).None? then s.w else W.Next(s.w, Action(s, p).value);
    var at := s.at[p := Onward(s, p)];
    if Takes(s, p) then Sys(w, at, true, Some(p))
    else if s.at[p].Clearing? then Sys(w, at, false, None)
    else Sys(w, at, s.locked, s.owner)
  }

  /** kill, by anyone: a sleeping process is made runnable. */
  function Kill(s: Sys, p: nat): Sys
    requires Inv(s) && p < |s.at| && W.Possible(s.w, W.Kill(p))
  {
    s.(w := W.Next(s.w, W.Kill(p)))
  }

  // ---------- what a step of sleep or wakeup does to the processes ----------

  /** It changes nothing about the others but that it may wake one up. */
  lemma OthersStay(w: W.Sys, e: W.Event, r: nat)
    requires W.Inv(w) && W.Possible(w, e) && r < |w.procs|
    ensures W.Inv(W.Next(w, e)) && |W.Next(w, e).procs| == |w.procs| && W.Next(w, e).lockOf == w.lockOf
    ensures |W.Next(w, e).locks| == |w.locks|
    ensures r != e.p || e.Kill? ==> W.Next(w, e).procs[r].pc == w.procs[r].pc
    ensures r != e.p || e.Kill? ==> W.CommittedTo(W.Next(w, e).procs[r], 0) ==> W.CommittedTo(w.procs[r], 0)
  {
    W.NextInv(w, e);
    assert W.ProcOk(w, e.p);
    if W.IsWake(e, w) && w.procs[e.p].pc.WakeAt? {
      W.WakeAtIs(w, e.p);
    }
  }

  /** What it does to lk->lk, and where it takes the process itself. */
  predicate Moved(w: W.Sys, e: W.Event, t: W.Sys) {
    && |w.locks| == |t.locks| == 1 && e.p < |w.procs| == |t.procs|
    && var from, to := w.procs[e.p].pc, t.procs[e.p].pc;
       match e
       case Acquire(p, l) => w.locks[0].None? && t.locks[0] == Some(p) && to == from
       case Release(p, l) => w.locks[0] == Some(p) && t.locks[0].None? && to == from
       case CallSleep(p, c) => t.locks == w.locks && to.SleepLock?
       case CallWakeup(p, c) => t.locks == w.locks && to.Wake? && to.j == 0
       case GoOn(p) =>
         if InWakeup(from) then
           t.locks == w.locks && (if from == W.Wake(from.c, |w.procs|) then to.Outside? else InWakeup(to))
         else if from.SleepRelease? then w.locks[0] == Some(p) && t.locks[0].None? && to.SleepMark?
         else if from.Reacquire? then w.locks[0].None? && t.locks[0] == Some(p) && to.Outside?
         else t.locks == w.locks && InSleep(to) && !to.SleepLock? && (to.SleepRelease? <==> from.SleepLock?)
       case Kill(p) => t.locks == w.locks && to == from
  }

  lemma StepMoves(w: W.Sys, e: W.Event)
    requires W.Inv(w) && W.Possible(w, e) && w.lockOf == [0] && |w.locks| == 1
    ensures Moved(w, e, W.Next(w, e))
  {
    assert W.ProcOk(w, e.p);
  }

  // ---------- what every step keeps ----------

  lemma StepShape(s: Sys, p: nat)
    requires Inv(s) && p < |s.at| && Enabled(s, p)
    ensures Shape(Step(s, p)) && |Step(s, p).at| == |s.at| && W.Inv(Step(s, p).w)
  {
    if Action(s, p).Some? {
      OthersStay(s.w, Action(s, p).value, p);
    }
  }

  lemma StepOther(s: Sys, p: nat, r: nat)
    requires Inv(s) && p < |s.at| && Enabled(s, p) && r < |s.at| && r != p
    ensures Shape(Step(s, p)) && |Step(s, p).at| == |s.at| && ProcOk(Step(s, p), r)
  {
    StepShape(s, p);
    assert ProcOk(s, p) && ProcOk(s, r) && W.ProcOk(s.w, r) && W.ProcOk(s.w, p);
    if Action(s, p).Some? {
      OthersStay(s.w, Action(s, p).value, r);
      StepMoves(s.w, Action(s, p).value);
    }
  }

  lemma StepSelf(s: Sys, p: nat)
    requires Inv(s) && p < |s.at| && Enabled(s, p)
    ensures Shape(Step(s, p)) && |Step(s, p).at| == |s.at| && ProcOk(Step(s, p), p)
  {
    StepShape(s, p);
    assert ProcOk(s, p) && W.ProcOk(s.w, p);
    if Action(s, p).Some? {
      StepMoves(s.w, Action(s, p).value);
    }
  }

  /** Who sleeps after the step slept before it, or goes to sleep while the lock is taken. */
  lemma StepCommits(s: Sys, p: nat, r: nat)
    requires Inv(s) && p < |s.at| && Enabled(s, p) && r < |s.at|
    ensures Shape(Step(s, p)) && |Step(s, p).at| == |s.at|
    ensures Committed(Step(s, p), r) ==> Committed(s, r) || Step(s, p).locked
  {
    StepShape(s, p);
    if Action(s, p).Some? {
      OthersStay(s.w, Action(s, p).value, r);
    }
    assert ProcOk(s, p) && W.ProcOk(s.w, p);
  }

  /** The lock stays taken or lk->lk with a process in wakeup, until wakeup has looked at all processes. */
  lemma StepGuards(s: Sys, p: nat, r: nat)
    requires Inv(s) && p < |s.at| && Enabled(s, p) && r < |s.at| && Committed(s, r)
    ensures Shape(Step(s, p)) && |Step(s, p).at| == |s.at| && SleepOk(Step(s, p), r)
  {
    StepShape(s, p);
    assert ProcOk(s, p) && W.ProcOk(s.w, p) && SleepOk(s, r) && W.PassOk(s.w, p, r);
    if Action(s, p).Some? {
      StepMoves(s.w, Action(s, p).value);
      if s.w.locks[0].Some? && s.w.locks[0].value < |s.at| {
        OthersStay(s.w, Action(s, p).value, s.w.locks[0].value);
      }
    }
  }

  lemma StepSleep(s: Sys, p: nat, r: nat)
    requires Inv(s) && p < |s.at| && Enabled(s, p) && r < |s.at|
    ensures Shape(Step(s, p)) && |Step(s, p).at| == |s.at| && SleepOk(Step(s, p), r)
  {
    StepCommits(s, p, r);
    if Committed(s, r) {
      StepGuards(s, p, r);
    }
  }

  lemma StepInv(s: Sys, p: nat)
    requires Inv(s) && p < |s.at| && Enabled(s, p)
    ensures Inv(Step(s, p)) && |Step(s, p).at| == |s.at|
  {
    var t := Step(s, p);
    StepShape(s, p);
    forall r | 0 <= r < |t.at| ensures ProcOk(t, r) && SleepOk(t, r) {
      if r == p {
        StepSelf(s, p);
      } else {
        StepOther(s, p, r);
      }
      StepSleep(s, p, r);
    }
  }

  lemma KillInv(s: Sys, p: nat)
    requires Inv(s) && p < |s.at| && W.Possible(s.w, W.Kill(p))
    ensures Inv(Kill(s, p))
  {
    var t := Kill(s, p);
    StepMoves(s.w, W.Kill(p));
    OthersStay(s.w, W.Kill(p), p);
    forall r | 0 <= r < |t.at| ensures ProcOk(t, r) && SleepOk(t, r) {
      assert ProcOk(s, r) && SleepOk(s, r);
      OthersStay(s.w, W.Kill(p), r);
      if s.w.locks[0].Some? && s.w.locks[0].value < |s.at| {
        OthersStay(s.w, W.Kill(p), s.w.locks[0].value);
      }
    }
  }

  // ---------- runs ----------

  /** A process steps, or somebody kills one. */
  datatype Event = Steps(p: nat) | Kills(p: nat)

  predicate Possible(s: Sys, e: Event)
    requires Shape(s)
  {
    e.p < |s.at| && if e.Steps? then Enabled(s, e.p) else W.Possible(s.w, W.Kill(e.p))
  }

  function Next(s: Sys, e: Event): (t: Sys)
    requires Inv(s) && Possible(s, e)
    ensures Inv(t)
  {
    match e
    case Steps(p) => StepInv(s, p); Step(s, p)
    case Kills(p) => KillInv(s, p); Kill(s, p)
  }

  predicate Legal(s: Sys, es: seq<Event>)
    requires Inv(s)
    decreases |es|
  {
    es == [] || (Possible(s, es[0]) && Legal(Next(s, es[0]), es[1..]))
  }

  function After(s: Sys, es: seq<Event>): (t: Sys)
    requires Inv(s) && Legal(s, es)
    ensures Inv(t)
    decreases |es|
  {
    if es == [] then s else After(Next(s, es[0]), es[1..])
  }

  lemma StartInv(n: nat)
    ensures Inv(Start(n))
  {
    W.StartInv(n, 1, [0]);
  }

  /** In every interleaving, at most one process is between acquiresleep and releasesleep. */
  lemma MutualExclusion(n: nat, es: seq<Event>, p: nat, r: nat)
    requires (StartInv(n); Legal(Start(n), es))
    ensures var s := (StartInv(n); After(Start(n), es));
            p < |s.at| && r < |s.at| && Critical(s.at[p]) && Critical(s.at[r]) ==> p == r
  {
    StartInv(n);
    var s := After(Start(n), es);
    if p < |s.at| && r < |s.at| {
      assert ProcOk(s, p) && ProcOk(s, r);
    }
  }

  /** In every interleaving, a process sleeps only while somebody has the lock, or while the process that
      gave it up is still waking up the others. */
  lemma SleepersAreWoken(n: nat, es: seq<Event>, p: nat)
    requires (StartInv(n); Legal(Start(n), es))
    ensures var s := (StartInv(n); After(Start(n), es));
            p < |s.at| && Committed(s, p) ==>
              || (s.owner.Some? && s.owner.value < |s.at| && Critical(s.at[s.owner.value]))
              || (s.w.locks[0].Some? && s.w.locks[0].value < |s.at| && s.at[s.w.locks[0].value].Waking? &&
                  WillWake(s.w.procs[s.w.locks[0].value].pc, p))
  {
    StartInv(n);
    var s := After(Start(n), es);
    if p < |s.at| && Committed(s, p) {
      assert SleepOk(s, p);
      if s.owner.Some? {
        assert ProcOk(s, s.owner.value);
      } else {
        assert ProcOk(s, s.w.locks[0].value) && W.ProcOk(s.w, s.w.locks[0].value);
        assert W.PassOk(s.w, s.w.locks[0].value, p);
      }
    }
  }

  /** So when releasesleep has called wakeup, nobody who called sleep before it is still sleeping, or on the way
      to it. */
  lemma NoLostWakeup(n: nat, es: seq<Event>, q: nat, p: nat)
    requires (StartInv(n); Legal(Start(n), es))
    ensures var s := (StartInv(n); After(Start(n), es));
            q < |s.at| && p < |s.at| && s.at[q].Waking? && s.w.procs[q].pc.Outside? ==> !Committed(s, p)
  {
    StartInv(n);
    var s := After(Start(n), es);
    if p < |s.at| && q < |s.at| {
      assert ProcOk(s, p) && ProcOk(s, q) && SleepOk(s, p);
    }
  }

  // ---------- progress ----------

  lemma OneMore(s: Sys, e: Event, es: seq<Event>)
    requires Inv(s) && Possible(s, e) && Legal(Next(s, e), es)
    ensures Legal(s, [e] + es) && After(s, [e] + es) == After(Next(s, e), es)
  {
    assert ([e] + es)[1..] == es;
  }

  /** A process that finds the lock free takes it: three steps from the call of acquiresleep to its return. */
  lemma FreeLockIsTaken(s: Sys, p: nat)
    requires Inv(s) && p < |s.at| && s.at[p].Asking? && !s.locked && s.w.locks[0].None?
    ensures var es := [Steps(p)] + ([Steps(p)] + ([Steps(p)] + []));
            && Legal(s, es)
            && var t := After(s, es);
               t.at == s.at[p := Holder] && t.owner == Some(p) && t.locked && t.w.locks[0].None?
  {
    assert ProcOk(s, p);
    var a := Next(s, Steps(p));
    var b := Next(a, Steps(p));
    var c := Next(b, Steps(p));
    assert Legal(c, []) && After(c, []) == c;
    OneMore(b, Steps(p), []);
    OneMore(a, Steps(p), [Steps(p)] + []);
    OneMore(s, Steps(p), [Steps(p)] + ([Steps(p)] + []));
  }

  /** The process is in acquiresleep or releasesleep. */
  predicate Busy(a: Place) {
    !a.Away? && !a.Holder?
  }

  predicate CanStep(s: Sys, q: nat)
    requires Shape(s)
  {
    q < |s.at| && Busy(s.at[q]) && Enabled(s, q)
  }

  /** Who has the lock of another process has lk->lk. */
  lemma WakerHasLk(s: Sys, p: nat)
    requires Inv(s) && p < |s.at|
    ensures var l := s.w.procs[p].lock; l.Some? && l.value != p ==> HasLk(s, l.value)
  {
    assert W.ProcOk(s.w, p);
    var l := s.w.procs[p].lock;
    if l.Some? && l.value != p {
      assert W.ProcOk(s.w, l.value) && ProcOk(s, l.value);
    }
  }

  /** The process that has lk->lk, or the one whose own lock it waits for, can go on. */
  lemma LkMoves(s: Sys, q: nat) returns (r: nat)
    requires Inv(s) && q < |s.at| && HasLk(s, q)
    ensures CanStep(s, r)
  {
    assert ProcOk(s, q) && W.ProcOk(s.w, q);
    var pc := s.w.procs[q].pc;
    r := q;
    if pc.Wake? && pc.j < |s.at| && pc.j != q && s.w.procs[pc.j].lock.Some? {
      r := pc.j;
      assert ProcOk(s, r) && W.ProcOk(s.w, r);
      WakerHasLk(s, r);
    } else {
      WakerHasLk(s, q);
    }
  }

  /** With lk->lk free, whoever is in acquiresleep or releasesleep can go on, or sleeps while another process has
      the sleep lock. */
  lemma FreeMoves(s: Sys, p: nat) returns (r: nat)
    requires Inv(s) && p < |s.at| && s.w.locks[0].None? && Busy(s.at[p])
    ensures CanStep(s, r) || (r < |s.at| && s.at[r].Holder?)
  {
    assert ProcOk(s, p) && W.ProcOk(s.w, p) && SleepOk(s, p);
    r := p;
    WakerHasLk(s, p);
    if s.w.procs[p].state == W.Sleeping && s.w.procs[p].pc.Asleep? {
      r := s.owner.value;
      assert ProcOk(s, r);
    }
  }

  /** No interleaving ends with processes stuck in acquiresleep or releasesleep: some of them can go on, unless a
      process has the sleep lock and has yet to call releasesleep. */
  lemma NoDeadlock(n: nat, es: seq<Event>, p: nat)
    requires (StartInv(n); Legal(Start(n), es))
    ensures var s := (StartInv(n); After(Start(n), es));
            p < |s.at| && Busy(s.at[p]) ==> exists r: nat :: CanStep(s, r) || (r < |s.at| && s.at[r].Holder?)
  {
    StartInv(n);
    var s := After(Start(n), es);
    if p < |s.at| && Busy(s.at[p]) {
      if s.w.locks[0].None? {
        var r := FreeMoves(s, p);
      } else {
        var r := LkMoves(s, s.w.locks[0].value);
      }
    }
  }
}
