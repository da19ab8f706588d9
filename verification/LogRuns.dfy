/** What holds over every run of the log and the buffer cache (kernel/log.c over kernel/bio.c), from initlog on. */
module LogRuns {
  import opened Blocks
  import opened Wrappers
  import opened CacheSpec
  import opened LogSpec
  import opened LogRounds
  import opened CommitSteps
  import opened LogSystem
  import O = CacheOps

  /** The system as initlog leaves it. */
  ghost predicate Starts(s: System) {
    && Ok(s.c) && Consistent(s.c, s.lay, [], 0) && O.AllSpare(s.c.held) && s.c.latest == s.c.disk
    && s == System(s.c, s.lay, [], [], seq(NBUF, _ => Nobody), Resting, [], [s.c.disk], [])
  }

  lemma StartsInv(s: System)
    requires Starts(s)
    ensures Inv(s)
  {
    LocksIff(s.c, s.who, |s.who|);
    forall i | 0 <= i < |s.c.buf| ensures !s.c.buf[i].locked {
      BufAt(s.c, i);
    }
    RegionIff(s.c, s.lay, [], s.lay.size, None);
    PinsIff(s.c, [], |s.c.held|);
    assert s.lh[0..] == [];
  }

  /** Steps of any processes, in any order. */
  ghost predicate IsPath(states: seq<System>, steps: seq<Step>) {
    |states| == |steps| + 1 && forall i :: 0 <= i < |steps| ==> Next(states[i], steps[i], states[i + 1])
  }

  ghost predicate IsRun(states: seq<System>, steps: seq<Step>) {
    IsPath(states, steps) && Starts(states[0])
  }

  lemma {:induction false} PathKeeps(states: seq<System>, steps: seq<Step>, n: nat)
    requires IsPath(states, steps) && Inv(states[0]) && n < |states|
    ensures Inv(states[n])
  {
    if n > 0 {
      PathKeeps(states, steps, n - 1);
      StepKeeps(states[n - 1], steps[n - 1], states[n]);
    }
  }

  lemma EveryState(states: seq<System>, steps: seq<Step>, n: nat)
    requires IsRun(states, steps) && n < |states|
    ensures Inv(states[n])
  {
    StartsInv(states[0]);
    PathKeeps(states, steps, n);
  }

  lemma Extend(states: seq<System>, steps: seq<Step>, step: Step, t: System)
    requires IsRun(states, steps) && Next(states[|steps|], step, t)
    ensures IsRun(states + [t], steps + [step])
  {
  }

  // ---------- crashes ----------

  /** Every disk that any block write has left recovers to all of one version or all of the next. */
  lemma EveryDiskIsAtomic(states: seq<System>, steps: seq<Step>, n: nat, i: nat)
    requires IsRun(states, steps) && n < |states| && i < |states[n].history|
    ensures var s := states[n];
            && |s.mark| == |s.history| && s.mark[i] + 1 < |s.versions|
            && Atomic(s.history[i], s.versions[s.mark[i]], s.versions[s.mark[i] + 1], s.lay)
  {
    EveryState(states, steps, n);
    assert Marked(states[n].history[i], states[n].versions, states[n].mark[i], states[n].lay);
  }

  ghost predicate Recoverable(s: System) {
    && HeadOk(s.c.disk, s.lay) && |s.versions| > 0
    && if s.commit.Resting? then SameHome(Recovered(s.c.disk, s.lay), s.versions[|s.versions| - 1], s.lay)
       else |s.versions| > 1 && Atomic(s.c.disk, s.versions[|s.versions| - 2], s.versions[|s.versions| - 1], s.lay)
  }

  lemma RecoverableAtRest(s: System)
    requires AtRest(s) && s.commit.Resting?
    ensures Recoverable(s)
  {
    ClearedIsRecovered(s.c.disk, s.lay);
  }

  lemma RecoverableInCommit(s: System)
    requires LogOk(s) && s.commit.Round?
    ensures Recoverable(s)
  {
    WritesAtomic(s, s.commit.j + if s.commit.stage == Written then 1 else 0);
  }

  /** Stop at any time: between commits the disk recovers to the last version, and during one to the last or the
      last but one, all of it. */
  lemma Durable(states: seq<System>, steps: seq<Step>, n: nat)
    requires IsRun(states, steps) && n < |states|
    ensures Recoverable(states[n])
  {
    EveryState(states, steps, n);
    if states[n].commit.Resting? {
      RecoverableAtRest(states[n]);
    } else {
      RecoverableInCommit(states[n]);
    }
  }

  // ---------- the cache ----------

  /** Who has read a block has its latest contents. */
  lemma EveryReadIsLatest(states: seq<System>, steps: seq<Step>, n: nat, b: nat)
    requires IsRun(states, steps) && n < |states| && Owned(states[n].c, b)
    ensures var c := states[n].c;
            c.buf[b].blockno < |c.latest| == |c.disk| && c.buf[b].data == c.latest[c.buf[b].blockno]
  {
    EveryState(states, steps, n);
    BufAt(states[n].c, b);
  }

  /** A client stores d in block k. */
  ghost predicate Stores(s: System, step: Step, k: nat, d: Block) {
    step.Modify? && step.b < |s.c.buf| && s.c.buf[step.b].blockno == k && step.d == d
  }

  /** bget recycles a buffer that has block k otherwise than the disk. */
  ghost predicate Loses(s: System, step: Step, k: nat) {
    && step.Bget? && step.b < |s.c.buf| && s.c.buf[step.b].blockno == k && step.k !in s.c.slot
    && s.c.buf[step.b].valid && !OnDisk(s.c, step.b)
  }

  lemma InstallStores(s: System, a: nat, b: nat, t: System, k: nat)
    requires Inv(s) && Copies(s, a, b, t) && k < |s.c.disk| && !InLog(s.lay, k)
    ensures |t.c.latest| == |s.c.latest| == |s.c.disk| && t.c.latest[k] == s.c.latest[k]
  {
    var x := Payload(s.c.disk, s.lay, s.lh, s.commit.mem, s.commit.j);
    CommitMeans(s);
    CopiesPayload(s, a, b, t, x);
    TargetOnDisk(s.c.disk, s.lay, s.lh, s.commit.j);
    SameOnIff(s.c.latest, s.commit.mem, s.lh, |s.lh|);
  }

  lemma StepStores(s: System, step: Step, t: System, k: nat)
    requires Inv(s) && Next(s, step, t) && k < |s.c.disk| && !InLog(s.lay, k)
    ensures |t.c.latest| == |s.c.latest| == |s.c.disk|
    ensures t.c.latest[k] != s.c.latest[k] ==>
            Stores(s, step, k, t.c.latest[k]) || (Loses(s, step, k) && t.c.latest[k] == s.c.disk[k])
  {
    match step
    case Bget(q, b) =>
      BufAt(s.c, b);
    case Bcopy(a, b) =>
      InstallStores(s, a, b, t, k);
    case _ =>
  }

  /** And the latest contents of a block are what a client has last stored in it, or what the disk has, if the
      buffer was recycled before that was logged. */
  lemma LatestChanges(states: seq<System>, steps: seq<Step>, n: nat, k: nat)
    requires IsRun(states, steps) && n < |steps| && k < |states[n].c.disk| && !InLog(states[n].lay, k)
    ensures var s, t := states[n], states[n + 1];
            && |t.c.latest| == |s.c.latest| == |s.c.disk|
            && (t.c.latest[k] != s.c.latest[k] ==>
                  Stores(s, steps[n], k, t.c.latest[k]) || (Loses(s, steps[n], k) && t.c.latest[k] == s.c.disk[k]))
  {
    EveryState(states, steps, n);
    StepStores(states[n], steps[n], states[n + 1], k);
  }

  /** Every logged block is pinned in the cache, with its latest contents, until its commit installs it. */
  lemma LoggedIsPinned(states: seq<System>, steps: seq<Step>, n: nat, i: nat)
    requires IsRun(states, steps) && n < |states| && Unpinned(states[n].commit) <= i < |states[n].lh|
    ensures var s := states[n]; var k := s.lh[i];
            && PinnedAt(s.c, k) && k < |s.c.latest| && |s.c.buf| == |s.c.held|
            && s.c.buf[s.c.slot[k]].valid && s.c.buf[s.c.slot[k]].data == s.c.latest[k]
  {
    EveryState(states, steps, n);
    var s := states[n];
    PinnedEntry(s.c, s.lh[Unpinned(s.commit)..], i - Unpinned(s.commit));
    SlotAt(s.c, s.lh[i]);
  }

  /** And no two buffers hold the same block, whatever bget has recycled. */
  lemma OneBufferPerBlock(states: seq<System>, steps: seq<Step>, n: nat, i: nat, j: nat)
    requires IsRun(states, steps) && n < |states| && i < NBUF && j < NBUF
    ensures var c := states[n].c;
            && |c.buf| == NBUF
            && (c.buf[i].dev == c.buf[j].dev != 0 && c.buf[i].blockno == c.buf[j].blockno ==> i == j)
  {
    EveryState(states, steps, n);
    BufAt(states[n].c, i);
    BufAt(states[n].c, j);
  }

  /** Some buffer can be had for block k. */
  ghost predicate CanGet(c: Cache, k: nat) {
    exists b: nat, d: Cache :: Gets(c, k, b, d)
  }

  lemma SpareGets(c: Cache, k: nat)
    requires Ok(c) && k < |c.disk|
    ensures CanGet(c, k) <==> k in c.slot || O.Spare(c.held)
  {
    if k in c.slot {
      SlotAt(c, k);
      assert Gets(c, k, c.slot[k], Hit(c, c.slot[k]));
    } else if O.Spare(c.held) {
      var i :| 0 <= i < |c.held| && c.held[i] == Holders(0, false);
      BufAt(c, i);
      assert Gets(c, k, i, Recycle(c, i, k));
    } else {
      forall b: nat, d: Cache ensures !Gets(c, k, b, d) {
        if b < NBUF {
          BufAt(c, b);
          assert c.held[b] != Holders(0, false);
        }
      }
    }
  }

  /** bget does not panic exactly when the block is cached, or the logged blocks that are not yet installed and
      the other buffers that somebody uses or waits for are fewer than NBUF together. */
  lemma CanGetIff(states: seq<System>, steps: seq<Step>, n: nat, k: nat)
    requires IsRun(states, steps) && n < |states| && k < |states[n].c.disk|
    ensures var s := states[n];
            && |s.c.held| == NBUF && Unpinned(s.commit) <= |s.lh|
            && (CanGet(s.c, k) <==>
                  k in s.c.slot || |s.lh| - Unpinned(s.commit) + UserCount(s.c.held, NBUF) < NBUF)
  {
    EveryState(states, steps, n);
    var s := states[n];
    RegionMeans(s);
    SpareGets(s.c, k);
    SpareIff(s.c, s.lh[Unpinned(s.commit)..]);
  }

  // ---------- clients that log what they modify ----------

  /** No buffer is released with a modification that is not logged. */
  ghost predicate Logging(states: seq<System>, steps: seq<Step>) {
    forall n :: 0 <= n < |steps| && n < |states| && steps[n].Brelse? ==> O.CanRelease(states[n].c, steps[n].b)
  }

  /** Buffer i is pinned or as on disk, or a client has it, or the commit is about to write it. */
  ghost predicate Accounted(s: System, i: nat) {
    && i < |s.c.buf| == |s.c.held| == |s.who|
    && (s.c.buf[i].valid && !s.c.held[i].pinned ==>
          OnDisk(s.c, i) || s.who[i] == Client || (s.who[i] == Committer && Moving(s) == Some(s.c.buf[i].blockno)))
  }

  lemma HolderIs(s: System, i: nat)
    requires Inv(s) && i < NBUF
    ensures |s.who| == |s.c.buf| && (s.c.buf[i].locked <==> s.who[i] != Nobody)
    ensures s.c.buf[i].refcnt == 0 ==> !s.c.buf[i].locked && !s.c.held[i].pinned
  {
    LocksIff(s.c, s.who, |s.who|);
    BufAt(s.c, i);
  }

  lemma WriteAccounted(s: System, a: nat, t: System, i: nat)
    requires Inv(s) && Writes(s, a, t) && Accounted(s, i)
    ensures Accounted(t, i)
  {
    BufAt(s.c, i);
    BufAt(s.c, a);
  }

  lemma UnpinAccounted(s: System, a: nat, t: System, i: nat)
    requires Inv(s) && Unpins(s, a, t) && Accounted(s, i)
    ensures Accounted(t, i)
  {
    UnpinsHome(s, a, t);
    CommitMeans(s);
    SameOnIff(s.c.disk, s.commit.mem, s.lh, s.commit.unpinned + 1);
    SameOnIff(s.c.latest, s.commit.mem, s.lh, |s.lh|);
    BufAt(s.c, a);
  }

  lemma ClientAccounted(s: System, step: Step, t: System, i: nat)
    requires Next(s, step, t) && Accounted(s, i) && (step.Brelse? ==> O.CanRelease(s.c, step.b))
    requires !step.Bcopy? && !step.Bwrite? && !step.Bunpin? && !step.Bdrop? && !step.Advance?
    requires (s.c.buf[i].locked <==> s.who[i] != Nobody) && (s.ops != [] ==> s.commit.Resting?)
    ensures Accounted(t, i)
  {
  }

  lemma CopyAccounted(s: System, a: nat, b: nat, t: System, i: nat)
    requires Copies(s, a, b, t) && Accounted(s, i)
    ensures Accounted(t, i)
  {
  }

  lemma DropAccounted(s: System, b: nat, t: System, i: nat)
    requires Drops(s, b, t) && Accounted(s, i)
    ensures Accounted(t, i)
  {
  }

  lemma AdvanceAccounted(s: System, t: System, i: nat)
    requires Advances(s, t) && Accounted(s, i)
    ensures Accounted(t, i)
  {
  }

  lemma StepAccounted(s: System, step: Step, t: System, i: nat)
    requires Inv(s) && Next(s, step, t) && Accounted(s, i) && (step.Brelse? ==> O.CanRelease(s.c, step.b))
    ensures Accounted(t, i)
  {
    match step
    case Bcopy(a, b) => CopyAccounted(s, a, b, t, i);
    case Bwrite(a) => WriteAccounted(s, a, t, i);
    case Bunpin(a) => UnpinAccounted(s, a, t, i);
    case Bdrop(b) => DropAccounted(s, b, t, i);
    case Advance => AdvanceAccounted(s, t, i);
    case _ =>
      HolderIs(s, i);
      ClientAccounted(s, step, t, i);
  }

  lemma StartsAccounted(s: System, i: nat)
    requires Starts(s) && i < NBUF
    ensures Accounted(s, i)
  {
    BufAt(s.c, i);
  }

  lemma LoggingAt(states: seq<System>, steps: seq<Step>, n: nat)
    requires Logging(states, steps) && n < |steps| && n < |states|
    ensures steps[n].Brelse? ==> O.CanRelease(states[n].c, steps[n].b)
  {
  }

  lemma PathAt(states: seq<System>, steps: seq<Step>, n: nat)
    requires IsPath(states, steps) && n < |steps|
    ensures n + 1 < |states| && Next(states[n], steps[n], states[n + 1])
  {
  }

  lemma {:induction false} EveryBufferAccounted(states: seq<System>, steps: seq<Step>, n: nat, i: nat)
    requires IsRun(states, steps) && Logging(states, steps) && n < |states| && i < NBUF
    ensures Accounted(states[n], i)
  {
    if n == 0 {
      StartsAccounted(states[0], i);
    } else {
      EveryState(states, steps, n - 1);
      EveryBufferAccounted(states, steps, n - 1, i);
      LoggingAt(states, steps, n - 1);
      PathAt(states, steps, n - 1);
      StepAccounted(states[n - 1], steps[n - 1], states[n], i);
    }
  }

  /** Then bget loses nothing: what a client has stored stays until the next one stores something else. */
  lemma NothingLost(states: seq<System>, steps: seq<Step>, n: nat, k: nat)
    requires IsRun(states, steps) && Logging(states, steps) && n < |steps|
    requires k < |states[n].c.disk| && !InLog(states[n].lay, k)
    ensures var s, t := states[n], states[n + 1];
            && |t.c.latest| == |s.c.latest| == |s.c.disk|
            && (t.c.latest[k] != s.c.latest[k] ==> Stores(s, steps[n], k, t.c.latest[k]))
  {
    LatestChanges(states, steps, n, k);
    EveryState(states, steps, n);
    if Loses(states[n], steps[n], k) {
      EveryBufferAccounted(states, steps, n, steps[n].b);
      HolderIs(states[n], steps[n].b);
    }
  }

  lemma CleanIsOnDisk(s: System, k: nat)
    requires Inv(s) && s.commit.Resting? && Client !in s.who && k < |s.c.disk| && k !in s.lh
    requires forall i :: 0 <= i < NBUF ==> Accounted(s, i)
    ensures |s.c.latest| == |s.c.disk| && s.c.latest[k] == s.c.disk[k]
  {
    CoherentIff(s.c, |s.c.buf|);
    assert s.lh[0..] == s.lh;
    PinsIff(s.c, s.lh, |s.c.held|);
    if k in s.c.slot {
      SlotAt(s.c, k);
      assert Accounted(s, s.c.slot[k]);
    }
  }

  /** And what a commit makes durable is all that clients have stored. */
  lemma VersionIsLatest(states: seq<System>, steps: seq<Step>, n: nat)
    requires IsRun(states, steps) && Logging(states, steps) && n < |steps|
    requires states[n].commit.Resting? && states[n + 1].commit.Round?
    ensures var s, t := states[n], states[n + 1];
            |t.versions| > 0 && SameHome(t.versions[|t.versions| - 1], s.c.latest, s.lay)
  {
    EveryState(states, steps, n);
    var s := states[n];
    RegionMeans(s);
    forall k | 0 <= k < |s.c.disk| && k !in s.lh ensures s.c.latest[k] == s.c.disk[k] {
      forall i | 0 <= i < NBUF ensures Accounted(s, i) {
        EveryBufferAccounted(states, steps, n, i);
      }
      CleanIsOnDisk(s, k);
    }
  }
}
