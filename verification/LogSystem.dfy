/** The log and the buffer cache together (kernel/log.c over kernel/bio.c): any number of operations, of readers
    outside operations, and the commit, one step on one buffer at a time, in any interleaving. */
module LogSystem {
  import opened Sequences
  import opened Blocks
  import opened Wrappers
  import opened CacheSpec
  import opened LogSpec
  import opened LogRounds
  import opened CommitSteps
  import R = LogReservation

  /** Who has locked a buffer: a reader outside operations, a client inside one, or the commit. */
  datatype Who = Nobody | Reader | Client | Committer

  /** Where the commit is in one of its rounds: it takes the buffers, has filled in the one to be written, or has
      written it. */
  datatype Stage = Taking | Moved | Written

  /** Between commits, or in round j of one that began with this disk and these contents of the cache, with
      `unpinned` logged blocks unpinned so far. */
  datatype Commit = Resting | Round(j: nat, stage: Stage, unpinned: nat, disk: Disk, mem: Disk)

  /** The cache, the log, and what history keeps: the disk after every block write, the contents that every commit
      makes durable (a version), and for each of those disks the version that was current when its commit began. */
  datatype System = System(
    c: Cache, lay: Layout, lh: seq<nat>, ops: seq<set<nat>>, who: seq<Who>, commit: Commit,
    history: seq<Disk>, versions: seq<Disk>, mark: seq<nat>)

  /** bread is Bget, Acquire and ReadIn; in between others run, and who waits for a buffer has a reference to it.
      Bcopy, Bwrite, Bunpin, Bdrop and Advance are steps of the commit. */
  datatype Step =
    | Begin
    | Bget(k: nat, b: nat)
    | Acquire(b: nat, w: Who)
    | ReadIn(b: nat)
    | Modify(b: nat, d: Block)
    | LogWrite(op: nat, b: nat)
    | Brelse(b: nat)
    | End(op: nat)
    | Bcopy(a: nat, b: nat)
    | Bwrite(a: nat)
    | Bunpin(a: nat)
    | Bdrop(b: nat)
    | Advance

  ghost function Res(s: System): R.State {
    R.State(s.lh, s.ops)
  }

  // ---------- the steps of readers and clients ----------

  /** bget up to the release of bcache.lock. */
  ghost predicate Gets(c: Cache, k: nat, b: nat, d: Cache) {
    && b < |c.buf| == |c.held| && k < |c.disk|
    && if k in c.slot then b == c.slot[k] && d == Hit(c, b) else c.buf[b].refcnt == 0 && d == Recycle(c, b, k)
  }

  /** acquiresleep by one of those that have a reference; the commit takes the buffers of its round. */
  ghost predicate Acquires(s: System, b: nat, w: Who, t: System) {
    && b < |s.c.buf| == |s.c.held| == |s.who| && !s.c.buf[b].locked && s.c.held[b].users > 0
    && (w == Reader || (w == Client && s.ops != []) || (w == Committer && Taken(s, s.c.buf[b].blockno)))
    && t == s.(c := Lock(s.c, b), who := s.who[b := w])
  }

  ghost predicate Taken(s: System, k: nat) {
    && s.commit.Round? && s.commit.stage == Taking && s.commit.j < 2 * |s.lh| + 2
    && (k == Target(s.lay, s.lh, s.commit.j) || Some(k) == Source(s.lay, s.lh, s.commit.j))
  }

  ghost predicate Holds(s: System, b: nat, w: Who) {
    Owned(s.c, b) && |s.who| == |s.c.buf| == |s.c.held| && s.who[b] == w
  }

  /** A client changes a buffer that it has read. */
  ghost predicate Modifies(s: System, b: nat, d: Block, t: System) {
    && Holds(s, b, Client) && !InLog(s.lay, s.c.buf[b].blockno)
    && s.c.buf[b].blockno < |s.c.latest| && t == s.(c := CacheSpec.Modify(s.c, b, d))
  }

  /** log_write, of a block that is new in the log or is absorbed. */
  ghost predicate Logs(s: System, op: nat, b: nat, t: System) {
    && Holds(s, b, Client) && op < |s.ops| && !R.TooBig(Res(s), s.lay.size) && !InLog(s.lay, s.c.buf[b].blockno)
    && var k := s.c.buf[b].blockno;
       var r := R.AfterLogWrite(Res(s), op, k);
       t == s.(c := if k in s.lh then s.c else Pin(s.c, b), lh := r.blocks, ops := r.ops)
  }

  /** brelse, whether or not what was modified has been logged. */
  ghost predicate Releases(s: System, b: nat, t: System) {
    && (Holds(s, b, Reader) || Holds(s, b, Client)) && s.c.buf[b].refcnt > 0 && s.c.held[b].users > 0
    && t == s.(c := Release(s.c, b), who := s.who[b := Nobody])
  }

  /** end_op: the last one begins a commit, if there is something to commit. No client may still have a buffer. */
  ghost predicate Ends(s: System, op: nat, t: System) {
    && op < |s.ops| && |s.c.latest| == |s.c.disk|
    && if |s.ops| > 1 then t == s.(ops := R.AfterEnd(Res(s), op).ops)
       else
         && Client !in s.who
         && if s.lh == [] then t == s.(ops := [])
            else t == s.(ops := [], commit := Round(0, Taking, 0, s.c.disk, s.c.latest),
                         versions := s.versions + [Merged(s.c.disk, s.lh, s.c.latest)])
  }

  // ---------- the steps of the commit ----------

  ghost predicate InRound(s: System, stage: Stage) {
    s.commit.Round? && s.commit.stage == stage && s.commit.j < 2 * |s.lh| + 2
  }

  ghost function TargetOf(s: System): nat
    requires s.commit.Round? && s.commit.j < 2 * |s.lh| + 2
  {
    Target(s.lay, s.lh, s.commit.j)
  }

  /** memmove from buffer b to buffer a, or the loop of write_head on buffer a. */
  ghost predicate Copies(s: System, a: nat, b: nat, t: System) {
    && InRound(s, Taking) && Holds(s, a, Committer) && s.c.buf[a].blockno == TargetOf(s) < |s.c.latest|
    && if WritesHead(s.lh, s.commit.j) then
         && |s.lh| <= LOGSIZE && (forall i :: 0 <= i < |s.lh| ==> s.lh[i] < TWO32)
         && t == s.(c := CacheSpec.Modify(s.c, a, EncodeHead(s.c.buf[a].data, HeadList(s.lh, s.commit.j))),
                    commit := s.commit.(stage := Moved))
       else
         && Holds(s, b, Committer) && Some(s.c.buf[b].blockno) == Source(s.lay, s.lh, s.commit.j)
         && t == s.(c := CacheSpec.Modify(s.c, a, s.c.buf[b].data), commit := s.commit.(stage := Moved))
  }

  ghost predicate Writes(s: System, a: nat, t: System) {
    && InRound(s, Moved) && Holds(s, a, Committer) && s.c.buf[a].blockno == TargetOf(s) < |s.c.disk|
    && |s.versions| >= 2
    && t == s.(c := Write(s.c, a), commit := s.commit.(stage := Written),
               history := s.history + [Write(s.c, a).disk], mark := s.mark + [|s.versions| - 2])
  }

  ghost predicate Unpins(s: System, a: nat, t: System) {
    && InRound(s, Written) && Installs(s.lh, s.commit.j) && s.commit.unpinned == Entry(s.lh, s.commit.j)
    && Holds(s, a, Committer) && s.c.buf[a].blockno == TargetOf(s) && s.c.buf[a].refcnt > 0
    && t == s.(c := Unpin(s.c, a), commit := s.commit.(unpinned := s.commit.unpinned + 1))
  }

  /** In a round of install_trans bunpin comes before the brelses. */
  ghost predicate RoundOver(s: System) {
    InRound(s, Written) && (Installs(s.lh, s.commit.j) ==> s.commit.unpinned == Entry(s.lh, s.commit.j) + 1)
  }

  ghost predicate Drops(s: System, b: nat, t: System) {
    && RoundOver(s) && Holds(s, b, Committer) && s.c.buf[b].refcnt > 0 && s.c.held[b].users > 0
    && t == s.(c := Release(s.c, b), who := s.who[b := Nobody])
  }

  ghost predicate Advances(s: System, t: System) {
    && RoundOver(s) && Committer !in s.who
    && if s.commit.j + 1 < 2 * |s.lh| + 2 then t == s.(commit := s.commit.(j := s.commit.j + 1, stage := Taking))
       else t == s.(commit := Resting, lh := [])
  }

  ghost predicate Next(s: System, step: Step, t: System) {
    match step
    case Begin => s.commit.Resting? && R.Granted(Res(s)) && t == s.(ops := s.ops + [{}])
    case Bget(k, b) => Gets(s.c, k, b, t.c) && t == s.(c := t.c)
    case Acquire(b, w) => Acquires(s, b, w, t)
    case ReadIn(b) =>
      b < |s.c.buf| && s.c.buf[b].locked && s.c.buf[b].blockno < |s.c.disk| && t == s.(c := Fill(s.c, b))
    case Modify(b, d) => Modifies(s, b, d, t)
    case LogWrite(op, b) => Logs(s, op, b, t)
    case Brelse(b) => Releases(s, b, t)
    case End(op) => Ends(s, op, t)
    case Bcopy(a, b) => Copies(s, a, b, t)
    case Bwrite(a) => Writes(s, a, t)
    case Bunpin(a) => Unpins(s, a, t)
    case Bdrop(b) => Drops(s, b, t)
    case Advance => Advances(s, t)
  }

  // ---------- what every step keeps ----------

  /** Of the first n buffers, those are locked that somebody has. */
  ghost predicate LocksTo(c: Cache, who: seq<Who>, n: nat) {
    n == 0 || (n <= |who| == |c.buf| && (c.buf[n - 1].locked <==> who[n - 1] != Nobody) && LocksTo(c, who, n - 1))
  }

  ghost predicate Locks(c: Cache, who: seq<Who>) {
    |who| == |c.buf| && LocksTo(c, who, |who|)
  }

  lemma {:induction false} LocksIff(c: Cache, who: seq<Who>, n: nat)
    requires n <= |who| == |c.buf|
    ensures LocksTo(c, who, n) <==> forall i :: 0 <= i < n ==> (c.buf[i].locked <==> who[i] != Nobody)
  {
    if n > 0 {
      LocksIff(c, who, n - 1);
    }
  }

  ghost function Unpinned(commit: Commit): nat {
    if commit.Resting? then 0 else commit.unpinned
  }

  /** The block that the commit has changed in the cache and not yet on disk. */
  ghost function Moving(s: System): Option<nat> {
    if InRound(s, Moved) then Some(TargetOf(s)) else None
  }

  /** Between commits the disk has an empty header and the last version. */
  ghost predicate AtRest(s: System) {
    && Cleared(s.c.disk, s.lay) && |s.versions| > 0 && SameHome(s.versions[|s.versions| - 1], s.c.disk, s.lay)
    && (s.ops == [] ==> s.lh == [])
  }

  /** How far the blocks are unpinned in round j. */
  predicate Progress(lh: seq<nat>, j: nat, stage: Stage, unpinned: nat) {
    && j < 2 * |lh| + 2 && (j <= |lh| ==> unpinned == 0) && (j == 2 * |lh| + 1 ==> unpinned == |lh|)
    && (Installs(lh, j) ==> unpinned == Entry(lh, j) || (stage == Written && unpinned == Entry(lh, j) + 1))
  }

  /** What a commit began with, on a disk with n blocks: an empty header, and as the last but one version; the
      last is what it is to end with. The first m logged blocks are on the disk, outside the log region. */
  ghost predicate Began(lay: Layout, lh: seq<nat>, n: nat, versions: seq<Disk>, d: Disk, mem: Disk, m: nat) {
    if m == 0 then
      && |d| == |mem| == n && |lh| <= LOGSIZE && |lh| < lay.size && Cleared(d, lay)
      && |versions| > 1 && SameHome(versions[|versions| - 2], d, lay) && versions[|versions| - 1] == Merged(d, lh, mem)
    else
      m <= |lh| && lh[m - 1] < n && !InLog(lay, lh[m - 1]) && Began(lay, lh, n, versions, d, mem, m - 1)
  }

  lemma {:induction false} BeganIff(lay: Layout, lh: seq<nat>, n: nat, versions: seq<Disk>, d: Disk, mem: Disk, m: nat)
    requires m <= |lh|
    ensures Began(lay, lh, n, versions, d, mem, m) <==>
            && Began(lay, lh, n, versions, d, mem, 0) && forall i :: 0 <= i < m ==> lh[i] < n && !InLog(lay, lh[i])
  {
    if m > 0 {
      BeganIff(lay, lh, n, versions, d, mem, m - 1);
    }
  }

  lemma BeganMeans(s: System)
    requires s.commit.Round? && InCommit(s)
    ensures Committable(s.commit.disk, s.lay, s.lh, s.commit.mem) && |s.c.disk| == |s.commit.disk|
    ensures Began(s.lay, s.lh, |s.c.disk|, s.versions, s.commit.disk, s.commit.mem, 0)
  {
    BeganIff(s.lay, s.lh, |s.c.disk|, s.versions, s.commit.disk, s.commit.mem, |s.lh|);
  }

  /** The commit has its target in a buffer, filled in. */
  ghost predicate FilledIn(s: System)
    requires s.commit.Round? && s.commit.j < 2 * |s.lh| + 2
  {
    && TargetOf(s) < |s.c.latest| && TargetOf(s) in s.c.slot && s.c.slot[TargetOf(s)] < |s.who|
    && s.who[s.c.slot[TargetOf(s)]] == Committer
    && s.c.latest[TargetOf(s)] == Payload(s.c.disk, s.lay, s.lh, s.commit.mem, s.commit.j)
  }

  /** In a commit the disk is as after so many of its writes, and the cache has the logged blocks as it had them
      when the commit began. */
  ghost predicate InCommit(s: System) {
    && s.commit.Round? && s.ops == [] && s.lh != []
    && Began(s.lay, s.lh, |s.c.disk|, s.versions, s.commit.disk, s.commit.mem, |s.lh|)
    && Progress(s.lh, s.commit.j, s.commit.stage, s.commit.unpinned)
    && s.c.disk == After(s.commit.disk, s.lay, s.lh, s.commit.mem,
                         s.commit.j + if s.commit.stage == Written then 1 else 0)
    && SameOn(s.c.latest, s.commit.mem, s.lh, |s.lh|) && SameOn(s.c.disk, s.commit.mem, s.lh, s.commit.unpinned)
    && (s.commit.stage == Moved ==> FilledIn(s)) && Client !in s.who
  }

  /** The logged blocks are distinct ones that the log can hold, and the first m blocks of the log region, but
      for one, are up to date on the disk. */
  ghost predicate Region(c: Cache, lay: Layout, lh: seq<nat>, m: nat, but: Option<nat>) {
    if m == 0 then
      Loggable(c.disk, lay, lh) && lay.size <= LOGSIZE && Distinct(lh) && |c.latest| == |c.disk|
    else
      && lay.start + m <= |c.disk| == |c.latest|
      && (but == Some(lay.start + m - 1) || c.latest[lay.start + m - 1] == c.disk[lay.start + m - 1])
      && Region(c, lay, lh, m - 1, but)
  }

  lemma {:induction false} RegionIff(c: Cache, lay: Layout, lh: seq<nat>, m: nat, but: Option<nat>)
    requires m <= lay.size
    ensures Region(c, lay, lh, m, but) <==>
            && Region(c, lay, lh, 0, but)
            && forall k :: lay.start <= k < lay.start + m && but != Some(k) ==> c.latest[k] == c.disk[k]
  {
    if m > 0 {
      RegionIff(c, lay, lh, m - 1, but);
    }
  }

  /** And the logged blocks are pinned until they are installed. */
  ghost predicate LogOk(s: System) {
    && 0 < s.lay.size && Region(s.c, s.lay, s.lh, s.lay.size, Moving(s))
    && Unpinned(s.commit) <= |s.lh| && Pins(s.c, s.lh[Unpinned(s.commit)..])
    && if s.commit.Resting? then AtRest(s) else InCommit(s)
  }

  lemma RegionMeans(s: System)
    requires LogOk(s)
    ensures Loggable(s.c.disk, s.lay, s.lh) && s.lay.size <= LOGSIZE && Distinct(s.lh) && |s.c.latest| == |s.c.disk|
  {
    RegionIff(s.c, s.lay, s.lh, s.lay.size, Moving(s));
  }

  /** Every disk so far recovers to the version that was current when its commit began, or to the next; and
      versions succeed one another. */
  ghost predicate AllAtomic(history: seq<Disk>, versions: seq<Disk>, mark: seq<nat>, lay: Layout) {
    && |mark| == |history| && (forall i :: 0 < i < |mark| ==> mark[i - 1] <= mark[i])
    && forall i :: 0 <= i < |history| ==> Marked(history[i], versions, mark[i], lay)
  }

  ghost predicate Marked(e: Disk, versions: seq<Disk>, m: nat, lay: Layout) {
    m + 1 < |versions| && Atomic(e, versions[m], versions[m + 1], lay)
  }

  ghost predicate Inv(s: System) {
    Ok(s.c) && Locks(s.c, s.who) && LogOk(s) && AllAtomic(s.history, s.versions, s.mark, s.lay)
  }

  // ---------- steps that leave the disk and the logged blocks alone ----------

  /** Block k is in a buffer that nobody has locked and the log has not pinned. */
  ghost predicate Loose(c: Cache, k: nat) {
    k in c.slot && c.slot[k] < |c.buf| == |c.held| && !c.buf[c.slot[k]].locked && !c.held[c.slot[k]].pinned
  }

  /** From c to d only a loose block can have lost what the disk does not have, and pinned blocks stay. */
  ghost predicate Quiet(c: Cache, d: Cache) {
    && d.disk == c.disk && |d.latest| == |c.latest| == |c.disk| && |d.buf| == |c.buf| == |d.held| == |c.held|
    && (forall k :: 0 <= k < |c.disk| ==> d.latest[k] == c.latest[k] || (d.latest[k] == c.disk[k] && Loose(c, k)))
    && (forall i :: 0 <= i < |c.held| ==> d.held[i].pinned == c.held[i].pinned)
    && (forall i :: 0 <= i < |c.held| && c.held[i].pinned ==> d.buf[i].blockno == c.buf[i].blockno)
    && (forall k :: PinnedAt(c, k) ==> k in d.slot && d.slot[k] == c.slot[k])
  }

  /** The commit keeps the buffer that it has filled in. */
  ghost predicate Kept(s: System, d: Cache, who: seq<Who>) {
    && (s.ops == [] ==> forall i :: 0 <= i < |who| && who[i] == Client ==> i < |s.who| && s.who[i] == Client)
    && (InRound(s, Moved) && TargetOf(s) in s.c.slot ==>
          TargetOf(s) in d.slot && d.slot[TargetOf(s)] == s.c.slot[TargetOf(s)] &&
          (s.c.slot[TargetOf(s)] < |s.who| && s.who[s.c.slot[TargetOf(s)]] == Committer ==>
             s.c.slot[TargetOf(s)] < |who| && who[s.c.slot[TargetOf(s)]] == Committer))
  }

  lemma QuietPins(c: Cache, d: Cache, l: seq<nat>)
    requires Quiet(c, d) && Pins(c, l)
    ensures Pins(d, l)
  {
    PinsIff(c, l, |c.held|);
    PinsIff(d, l, |c.held|);
  }

  lemma QuietLogged(s: System, d: Cache)
    requires Ok(s.c) && LogOk(s) && s.commit.Round? && Quiet(s.c, d)
    ensures SameOn(d.latest, s.commit.mem, s.lh, |s.lh|)
  {
    BeganMeans(s);
    SameOnIff(s.c.latest, s.commit.mem, s.lh, |s.lh|);
    SameOnIff(s.c.disk, s.commit.mem, s.lh, s.commit.unpinned);
    SameOnIff(d.latest, s.commit.mem, s.lh, |s.lh|);
    forall i | 0 <= i < |s.lh| ensures d.latest[s.lh[i]] == s.commit.mem[s.lh[i]] {
      if i >= s.commit.unpinned {
        PinnedEntry(s.c, s.lh[s.commit.unpinned..], i - s.commit.unpinned);
      }
    }
  }

  lemma QuietRegion(s: System, d: Cache, but: Option<nat>)
    requires Region(s.c, s.lay, s.lh, s.lay.size, but) && Quiet(s.c, d)
    ensures Region(d, s.lay, s.lh, s.lay.size, but)
  {
    RegionIff(s.c, s.lay, s.lh, s.lay.size, but);
    RegionIff(d, s.lay, s.lh, s.lay.size, but);
  }

  lemma QuietTarget(s: System, d: Cache, who: seq<Who>)
    requires Locks(s.c, s.who) && InRound(s, Moved) && FilledIn(s) && Quiet(s.c, d) && Kept(s, d, who)
    ensures FilledIn(s.(c := d, who := who))
  {
    LocksIff(s.c, s.who, |s.who|);
  }

  lemma QuietKeeps(s: System, d: Cache, who: seq<Who>)
    requires Ok(s.c) && Locks(s.c, s.who) && LogOk(s) && Quiet(s.c, d) && Kept(s, d, who)
    ensures LogOk(s.(c := d, who := who))
  {
    QuietPins(s.c, d, s.lh[Unpinned(s.commit)..]);
    QuietRegion(s, d, Moving(s));
    if s.commit.Round? {
      QuietLogged(s, d);
      if s.commit.stage == Moved {
        QuietTarget(s, d, who);
      }
    }
  }

  /** Buffer b, which nobody had locked, gets another holder or another block. */
  lemma KeptButOne(s: System, d: Cache, who: seq<Who>, b: nat)
    requires Locks(s.c, s.who) && b < |s.who| == |who| && !s.c.buf[b].locked
    requires forall i :: 0 <= i < |who| && i != b ==> who[i] == s.who[i]
    requires forall k :: k in s.c.slot && s.c.slot[k] != b ==> k in d.slot && d.slot[k] == s.c.slot[k]
    requires forall k :: k in s.c.slot && s.c.slot[k] == b && k in d.slot ==> d.slot[k] == b
    requires LogOk(s) && (s.ops == [] ==> who[b] != Client || who[b] == s.who[b])
    ensures Kept(s, d, who)
  {
    LocksIff(s.c, s.who, |s.who|);
  }

  lemma HitQuiet(c: Cache, b: nat)
    requires Ok(c) && b < NBUF
    ensures Quiet(c, Hit(c, b))
  {
  }

  lemma RecycleQuiet(c: Cache, b: nat, k: nat)
    requires Ok(c) && b < NBUF && c.buf[b].refcnt == 0 && k < |c.disk| && k !in c.slot
    ensures Quiet(c, Recycle(c, b, k))
  {
    BufAt(c, b);
    var d := Recycle(c, b, k);
    forall q | PinnedAt(c, q) ensures q in d.slot && d.slot[q] == c.slot[q] {
      SlotAt(c, q);
    }
  }

  /** Who has the buffers changes with buffer b only, if at all. */
  lemma SameLocks(c: Cache, d: Cache, who: seq<Who>, now: seq<Who>, b: nat)
    requires Locks(c, who) && |who| == |now| == |d.buf|
    requires b < |who| ==> (d.buf[b].locked <==> now[b] != Nobody)
    requires forall i :: 0 <= i < |who| && i != b ==> d.buf[i].locked == c.buf[i].locked && now[i] == who[i]
    ensures Locks(d, now)
  {
    LocksIff(c, who, |who|);
    LocksIff(d, now, |who|);
  }

  /** The reference of bget. A recycled buffer is one that nobody has locked. */
  lemma GetsLog(s: System, k: nat, b: nat, d: Cache)
    requires Ok(s.c) && Locks(s.c, s.who) && LogOk(s) && Gets(s.c, k, b, d)
    ensures LogOk(s.(c := d)) && Ok(d) && Quiet(s.c, d)
  {
    if k in s.c.slot {
      SlotAt(s.c, k);
      HitOk(s.c, b);
      HitQuiet(s.c, b);
    } else {
      BufAt(s.c, b);
      RecycleOk(s.c, b, k);
      RecycleQuiet(s.c, b, k);
      KeptButOne(s, d, s.who, b);
    }
    QuietKeeps(s, d, s.who);
  }

  lemma GetsKeeps(s: System, k: nat, b: nat, d: Cache)
    requires Inv(s) && Gets(s.c, k, b, d)
    ensures Inv(s.(c := d))
  {
    GetsLog(s, k, b, d);
    SameLocks(s.c, d, s.who, s.who, |s.who|);
  }

  lemma AcquiresKeeps(s: System, b: nat, w: Who, t: System)
    requires Inv(s) && Acquires(s, b, w, t)
    ensures Inv(t)
  {
    LockOk(s.c, b);
    SameLocks(s.c, t.c, s.who, t.who, b);
    KeptButOne(s, t.c, t.who, b);
    QuietKeeps(s, t.c, t.who);
  }

  lemma ReadInKeeps(s: System, b: nat, d: Cache)
    requires Inv(s) && b < |s.c.buf| && s.c.buf[b].locked && s.c.buf[b].blockno < |s.c.disk| && d == Fill(s.c, b)
    ensures Inv(s.(c := d))
  {
    FillOk(s.c, b);
    SameLocks(s.c, d, s.who, s.who, |s.who|);
    QuietKeeps(s, d, s.who);
  }

  lemma ReleasesKeeps(s: System, b: nat, t: System)
    requires Inv(s) && Releases(s, b, t)
    ensures Inv(t)
  {
    ReleaseOk(s.c, b);
    SameLocks(s.c, t.c, s.who, t.who, b);
    QuietKeeps(s, t.c, t.who);
  }

  lemma DropsKeeps(s: System, b: nat, t: System)
    requires Inv(s) && Drops(s, b, t)
    ensures Inv(t)
  {
    ReleaseOk(s.c, b);
    SameLocks(s.c, t.c, s.who, t.who, b);
    QuietKeeps(s, t.c, t.who);
  }

  // ---------- the other steps of clients ----------

  lemma BeginKeeps(s: System)
    requires Inv(s) && s.commit.Resting?
    ensures Inv(s.(ops := s.ops + [{}]))
  {
  }

  lemma SamePins(c: Cache, d: Cache, l: seq<nat>)
    requires Pins(c, l) && d.held == c.held && d.slot == c.slot && |d.buf| == |c.buf|
    requires forall i :: 0 <= i < |c.buf| ==> d.buf[i].blockno == c.buf[i].blockno
    ensures Pins(d, l)
  {
    PinsIff(c, l, |c.held|);
    PinsIff(d, l, |c.held|);
  }

  lemma ModifiesLog(s: System, b: nat, d: Block, t: System)
    requires LogOk(s) && Modifies(s, b, d, t)
    ensures LogOk(t)
  {
    SamePins(s.c, t.c, s.lh[0..]);
    RegionIff(s.c, s.lay, s.lh, s.lay.size, None);
    RegionIff(t.c, s.lay, s.lh, s.lay.size, None);
  }

  lemma ModifiesKeeps(s: System, b: nat, d: Block, t: System)
    requires Inv(s) && Modifies(s, b, d, t)
    ensures Inv(t)
  {
    ModifyOk(s.c, b, d);
    SameLocks(s.c, t.c, s.who, t.who, |s.who|);
    ModifiesLog(s, b, d, t);
  }

  lemma PinMore(c: Cache, b: nat, l: seq<nat>)
    requires Ok(c) && Pins(c, l) && b < NBUF && c.buf[b].dev != 0
    ensures Pins(Pin(c, b), l + [c.buf[b].blockno])
  {
    PinsIff(c, l, |c.held|);
    BufAt(c, b);
    PinsIff(Pin(c, b), l + [c.buf[b].blockno], |c.held|);
  }

  lemma NotPinned(c: Cache, b: nat, l: seq<nat>)
    requires Ok(c) && Pins(c, l) && b < NBUF && c.buf[b].blockno !in l
    ensures !c.held[b].pinned
  {
    PinsIff(c, l, |c.held|);
  }

  lemma LogsRegion(c: Cache, d: Cache, lay: Layout, lh: seq<nat>, k: nat)
    requires Region(c, lay, lh, lay.size, None) && d.disk == c.disk && d.latest == c.latest
    requires k !in lh && k < |c.disk| && !InLog(lay, k) && |lh| < LOGSIZE && |lh| < lay.size - 1
    ensures Region(d, lay, lh + [k], lay.size, None)
  {
    RegionIff(c, lay, lh, lay.size, None);
    RegionIff(d, lay, lh + [k], lay.size, None);
  }

  lemma LogsLog(s: System, op: nat, b: nat, t: System)
    requires Ok(s.c) && LogOk(s) && Logs(s, op, b, t) && s.c.buf[b].blockno !in s.lh
    ensures LogOk(t) && !s.c.held[b].pinned
  {
    var k := s.c.buf[b].blockno;
    BufAt(s.c, b);
    assert s.lh[0..] == s.lh;
    NotPinned(s.c, b, s.lh);
    PinMore(s.c, b, s.lh);
    LogsRegion(s.c, t.c, s.lay, s.lh, k);
    assert t.lh[0..] == s.lh + [k];
  }

  lemma LogsKeeps(s: System, op: nat, b: nat, t: System)
    requires Inv(s) && Logs(s, op, b, t)
    ensures Inv(t)
  {
    SameLocks(s.c, t.c, s.who, t.who, |s.who|);
    if s.c.buf[b].blockno !in s.lh {
      LogsLog(s, op, b, t);
      PinOk(s.c, b);
    }
  }

  lemma VersionsGrow(history: seq<Disk>, versions: seq<Disk>, mark: seq<nat>, lay: Layout, v: Disk)
    requires AllAtomic(history, versions, mark, lay)
    ensures AllAtomic(history, versions + [v], mark, lay)
  {
    forall i | 0 <= i < |history| ensures Marked(history[i], versions + [v], mark[i], lay) {
      assert Marked(history[i], versions, mark[i], lay);
    }
  }

  lemma BeginsCommit(s: System, t: System)
    requires LogOk(s) && Ends(s, 0, t) && |s.ops| == 1 && s.lh != []
    ensures Began(t.lay, t.lh, |t.c.disk|, t.versions, t.commit.disk, t.commit.mem, |t.lh|)
  {
    RegionMeans(s);
    BeganIff(t.lay, t.lh, |t.c.disk|, t.versions, t.commit.disk, t.commit.mem, |t.lh|);
  }

  lemma EndsLog(s: System, t: System)
    requires LogOk(s) && Ends(s, 0, t) && |s.ops| == 1 && s.lh != []
    ensures LogOk(t)
  {
    BeginsCommit(s, t);
    RegionMeans(s);
    SameOnIff(s.c.latest, s.c.latest, s.lh, |s.lh|);
  }

  lemma EndsKeeps(s: System, op: nat, t: System)
    requires Inv(s) && Ends(s, op, t)
    ensures Inv(t)
  {
    if |s.ops| == 1 && s.lh != [] {
      VersionsGrow(s.history, s.versions, s.mark, s.lay, Merged(s.c.disk, s.lh, s.c.latest));
      EndsLog(s, t);
    }
  }

  // ---------- the steps of the commit, again ----------

  lemma CommitMeans(s: System)
    requires LogOk(s) && s.commit.Round?
    ensures Committable(s.c.disk, s.lay, s.lh, s.commit.mem)
    ensures Committable(s.commit.disk, s.lay, s.lh, s.commit.mem) && |s.commit.disk| == |s.c.disk| == |s.c.latest|
  {
    RegionMeans(s);
    BeganMeans(s);
  }

  /** What is in the source of a copy. */
  lemma SourceHas(s: System, b: nat, k: nat)
    requires Ok(s.c) && LogOk(s) && InRound(s, Taking) && !WritesHead(s.lh, s.commit.j)
    requires Owned(s.c, b) && s.c.buf[b].blockno == k && Some(k) == Source(s.lay, s.lh, s.commit.j)
    ensures s.c.buf[b].data == Payload(s.c.disk, s.lay, s.lh, s.commit.mem, s.commit.j)
  {
    BufAt(s.c, b);
    CommitMeans(s);
    if Installs(s.lh, s.commit.j) {
      RegionIff(s.c, s.lay, s.lh, s.lay.size, None);
      AfterHas(s.commit.disk, s.lay, s.lh, s.commit.mem, s.commit.j, Entry(s.lh, s.commit.j));
    } else {
      SameOnIff(s.c.latest, s.commit.mem, s.lh, |s.lh|);
    }
  }

  /** The commit fills in what this write of it has to store. */
  lemma CopiesPayload(s: System, a: nat, b: nat, t: System, x: Block)
    requires Ok(s.c) && LogOk(s) && Copies(s, a, b, t)
    requires x == Payload(s.c.disk, s.lay, s.lh, s.commit.mem, s.commit.j)
    ensures t == s.(c := CacheSpec.Modify(s.c, a, x), commit := s.commit.(stage := Moved))
  {
    CommitMeans(s);
    if WritesHead(s.lh, s.commit.j) {
      BufAt(s.c, a);
      RegionIff(s.c, s.lay, s.lh, s.lay.size, None);
    } else {
      SourceHas(s, b, s.c.buf[b].blockno);
    }
  }

  lemma CopiesLogged(s: System, x: Block)
    requires LogOk(s) && InRound(s, Taking) && x == Payload(s.c.disk, s.lay, s.lh, s.commit.mem, s.commit.j)
    ensures TargetOf(s) < |s.c.latest| && SameOn(s.c.latest[TargetOf(s) := x], s.commit.mem, s.lh, |s.lh|)
  {
    CommitMeans(s);
    TargetOnDisk(s.c.disk, s.lay, s.lh, s.commit.j);
    SameOnIff(s.c.latest, s.commit.mem, s.lh, |s.lh|);
    SameOnIff(s.c.latest[TargetOf(s) := x], s.commit.mem, s.lh, |s.lh|);
  }

  lemma CopiesRegion(c: Cache, lay: Layout, lh: seq<nat>, a: nat, x: Block, k: nat)
    requires Region(c, lay, lh, lay.size, None) && a < |c.buf| && k == c.buf[a].blockno < |c.latest|
    ensures Region(CacheSpec.Modify(c, a, x), lay, lh, lay.size, Some(k))
  {
    RegionIff(c, lay, lh, lay.size, None);
    RegionIff(CacheSpec.Modify(c, a, x), lay, lh, lay.size, Some(k));
  }

  lemma CopiesFilled(s: System, a: nat, x: Block, t: System)
    requires Ok(s.c) && InRound(s, Taking) && Holds(s, a, Committer) && s.c.buf[a].blockno == TargetOf(s)
    requires TargetOf(s) < |s.c.latest| && x == Payload(s.c.disk, s.lay, s.lh, s.commit.mem, s.commit.j)
    requires t == s.(c := CacheSpec.Modify(s.c, a, x), commit := s.commit.(stage := Moved))
    ensures FilledIn(t)
  {
    BufAt(s.c, a);
  }

  lemma CopiesLog(s: System, a: nat, x: Block, t: System)
    requires Ok(s.c) && LogOk(s) && InRound(s, Taking) && Holds(s, a, Committer) && s.c.buf[a].blockno == TargetOf(s)
    requires TargetOf(s) < |s.c.latest| && x == Payload(s.c.disk, s.lay, s.lh, s.commit.mem, s.commit.j)
    requires t == s.(c := CacheSpec.Modify(s.c, a, x), commit := s.commit.(stage := Moved))
    ensures LogOk(t)
  {
    CopiesLogged(s, x);
    CopiesRegion(s.c, s.lay, s.lh, a, x, TargetOf(s));
    CopiesFilled(s, a, x, t);
    SamePins(s.c, t.c, s.lh[s.commit.unpinned..]);
  }

  lemma CopiesKeeps(s: System, a: nat, b: nat, t: System)
    requires Inv(s) && Copies(s, a, b, t)
    ensures Inv(t)
  {
    var x := Payload(s.c.disk, s.lay, s.lh, s.commit.mem, s.commit.j);
    CopiesPayload(s, a, b, t, x);
    CopiesLog(s, a, x, t);
    ModifyOk(s.c, a, x);
    SameLocks(s.c, t.c, s.who, t.who, |s.who|);
  }

  /** So the write leaves the next of the disks of a commit. */
  lemma WritesDisk(s: System, a: nat, t: System)
    requires Ok(s.c) && LogOk(s) && Writes(s, a, t)
    ensures t.c.disk == After(s.commit.disk, s.lay, s.lh, s.commit.mem, s.commit.j + 1)
    ensures TargetOf(s) < |s.c.latest| && t.c.disk == s.c.disk[TargetOf(s) := s.c.latest[TargetOf(s)]]
  {
    CommitMeans(s);
    BufAt(s.c, a);
  }

  lemma VersionIsAtomic(e: Disk, v: Disk, before: Disk, after: Disk, lay: Layout)
    requires Atomic(e, before, after, lay) && SameHome(v, before, lay)
    ensures Atomic(e, v, after, lay)
  {
  }

  lemma HistoryGrows(history: seq<Disk>, versions: seq<Disk>, mark: seq<nat>, lay: Layout, e: Disk, m: nat)
    requires AllAtomic(history, versions, mark, lay) && m + 2 == |versions| && Marked(e, versions, m, lay)
    ensures AllAtomic(history + [e], versions, mark + [m], lay)
  {
    if history != [] {
      assert Marked(history[|history| - 1], versions, mark[|history| - 1], lay);
    }
  }

  lemma WritesAtomic(s: System, j: nat)
    requires LogOk(s) && s.commit.Round? && j <= 2 * |s.lh| + 2
    ensures |s.versions| > 1
    ensures Atomic(After(s.commit.disk, s.lay, s.lh, s.commit.mem, j), s.versions[|s.versions| - 2],
                   s.versions[|s.versions| - 1], s.lay)
  {
    CommitMeans(s);
    BeganMeans(s);
    AfterIsAtomic(s.commit.disk, s.lay, s.lh, s.commit.mem, j);
    VersionIsAtomic(After(s.commit.disk, s.lay, s.lh, s.commit.mem, j), s.versions[|s.versions| - 2],
      s.commit.disk, s.versions[|s.versions| - 1], s.lay);
  }

  lemma WritesHomes(s: System, x: Block)
    requires LogOk(s) && InRound(s, Moved)
    ensures TargetOf(s) < |s.c.disk| && SameOn(s.c.disk[TargetOf(s) := x], s.commit.mem, s.lh, s.commit.unpinned)
  {
    CommitMeans(s);
    RegionMeans(s);
    TargetOnDisk(s.c.disk, s.lay, s.lh, s.commit.j);
    SameOnIff(s.c.disk, s.commit.mem, s.lh, s.commit.unpinned);
    SameOnIff(s.c.disk[TargetOf(s) := x], s.commit.mem, s.lh, s.commit.unpinned);
  }

  lemma WritesRegion(c: Cache, d: Cache, lay: Layout, lh: seq<nat>, k: nat)
    requires Region(c, lay, lh, lay.size, Some(k)) && k < |c.disk| && k < |c.latest|
    requires d.disk == c.disk[k := c.latest[k]] && d.latest == c.latest
    ensures Region(d, lay, lh, lay.size, None)
  {
    RegionIff(c, lay, lh, lay.size, Some(k));
    RegionIff(d, lay, lh, lay.size, None);
  }

  lemma WritesLog(s: System, a: nat, t: System)
    requires Ok(s.c) && LogOk(s) && Writes(s, a, t)
    ensures LogOk(t)
  {
    WritesDisk(s, a, t);
    WritesHomes(s, s.c.latest[TargetOf(s)]);
    WritesRegion(s.c, t.c, s.lay, s.lh, TargetOf(s));
    SamePins(s.c, t.c, s.lh[s.commit.unpinned..]);
  }

  lemma WritesHistory(s: System, a: nat, t: System)
    requires Ok(s.c) && LogOk(s) && AllAtomic(s.history, s.versions, s.mark, s.lay) && Writes(s, a, t)
    ensures AllAtomic(t.history, t.versions, t.mark, t.lay)
  {
    WritesDisk(s, a, t);
    WritesAtomic(s, s.commit.j + 1);
    HistoryGrows(s.history, s.versions, s.mark, s.lay, t.c.disk, |s.versions| - 2);
  }

  lemma WritesKeeps(s: System, a: nat, t: System)
    requires Inv(s) && Writes(s, a, t)
    ensures Inv(t)
  {
    WriteOk(s.c, a);
    SameLocks(s.c, t.c, s.who, t.who, |s.who|);
    WritesLog(s, a, t);
    WritesHistory(s, a, t);
  }

  /** The block that is unpinned is on the disk. */
  lemma UnpinsHome(s: System, a: nat, t: System)
    requires Ok(s.c) && LogOk(s) && Unpins(s, a, t)
    ensures TargetOf(s) == s.lh[s.commit.unpinned] && SameOn(s.c.disk, s.commit.mem, s.lh, s.commit.unpinned + 1)
    ensures TargetOf(s) in s.c.slot && s.c.slot[TargetOf(s)] == a && s.c.held[a].pinned
  {
    var u := s.commit.unpinned;
    CommitMeans(s);
    PinnedEntry(s.c, s.lh[u..], 0);
    BufAt(s.c, a);
  }

  lemma UnpinsPins(c: Cache, lh: seq<nat>, u: nat, a: nat)
    requires Ok(c) && u < |lh| && Distinct(lh) && Pins(c, lh[u..]) && a < NBUF && c.buf[a].refcnt > 0
    requires lh[u] in c.slot && c.slot[lh[u]] == a
    ensures Pins(Unpin(c, a), lh[u + 1..])
  {
    var d := Unpin(c, a);
    PinsIff(c, lh[u..], |c.held|);
    PinsIff(d, lh[u + 1..], |c.held|);
    assert lh[u..] == [lh[u]] + lh[u + 1..];
    forall q | q in lh[u + 1..] ensures PinnedAt(d, q) {
      assert q in lh[u..] && q != lh[u];
      SlotAt(c, q);
      SlotAt(c, lh[u]);
    }
    forall i | 0 <= i < |d.held| && d.held[i].pinned ensures d.buf[i].blockno in lh[u + 1..] {
      assert c.buf[i].blockno in lh[u..];
      BufAt(c, i);
    }
  }

  lemma SameRegion(c: Cache, d: Cache, lay: Layout, lh: seq<nat>, but: Option<nat>)
    requires Region(c, lay, lh, lay.size, but) && d.disk == c.disk && d.latest == c.latest
    ensures Region(d, lay, lh, lay.size, but)
  {
    RegionIff(c, lay, lh, lay.size, but);
    RegionIff(d, lay, lh, lay.size, but);
  }

  lemma UnpinsLog(s: System, a: nat, t: System)
    requires Ok(s.c) && LogOk(s) && Unpins(s, a, t)
    ensures LogOk(t) && s.c.held[a].pinned
  {
    UnpinsHome(s, a, t);
    RegionMeans(s);
    SameRegion(s.c, t.c, s.lay, s.lh, None);
    UnpinsPins(s.c, s.lh, s.commit.unpinned, a);
  }

  lemma UnpinsKeeps(s: System, a: nat, t: System)
    requires Inv(s) && Unpins(s, a, t)
    ensures Inv(t)
  {
    UnpinsLog(s, a, t);
    UnpinOk(s.c, a);
    SameLocks(s.c, t.c, s.who, t.who, |s.who|);
  }

  lemma ClearRegion(c: Cache, lay: Layout, lh: seq<nat>)
    requires Region(c, lay, lh, lay.size, None) && 0 < lay.size
    ensures Region(c, lay, [], lay.size, None)
  {
    RegionIff(c, lay, lh, lay.size, None);
    RegionIff(c, lay, [], lay.size, None);
  }

  /** After the last round all that was logged is on the disk. */
  lemma LastRests(s: System, t: System)
    requires LogOk(s) && Advances(s, t) && s.commit.j + 1 == 2 * |s.lh| + 2
    ensures AtRest(t)
  {
    CommitMeans(s);
    BeganMeans(s);
    AfterAll(s.commit.disk, s.lay, s.lh, s.commit.mem);
  }

  lemma LastRound(s: System, t: System)
    requires LogOk(s) && Advances(s, t) && s.commit.j + 1 == 2 * |s.lh| + 2
    ensures LogOk(t)
  {
    LastRests(s, t);
    ClearRegion(s.c, s.lay, s.lh);
    assert s.lh[|s.lh|..] == t.lh[0..];
  }

  lemma NextRound(s: System, t: System)
    requires LogOk(s) && Advances(s, t) && s.commit.j + 1 < 2 * |s.lh| + 2
    ensures LogOk(t)
  {
  }

  lemma AdvancesKeeps(s: System, t: System)
    requires Inv(s) && Advances(s, t)
    ensures Inv(t)
  {
    if s.commit.j + 1 == 2 * |s.lh| + 2 {
      LastRound(s, t);
    } else {
      NextRound(s, t);
    }
  }

  lemma StepKeeps(s: System, step: Step, t: System)
    requires Inv(s) && Next(s, step, t)
    ensures Inv(t)
  {
    match step
    case Begin => BeginKeeps(s);
    case Bget(k, b) => GetsKeeps(s, k, b, t.c);
    case Acquire(b, w) => AcquiresKeeps(s, b, w, t);
    case ReadIn(b) => ReadInKeeps(s, b, t.c);
    case Modify(b, d) => ModifiesKeeps(s, b, d, t);
    case LogWrite(op, b) => LogsKeeps(s, op, b, t);
    case Brelse(b) => ReleasesKeeps(s, b, t);
    case End(op) => EndsKeeps(s, op, t);
    case Bcopy(a, b) => CopiesKeeps(s, a, b, t);
    case Bwrite(a) => WritesKeeps(s, a, t);
    case Bunpin(a) => UnpinsKeeps(s, a, t);
    case Bdrop(b) => DropsKeeps(s, b, t);
    case Advance => AdvancesKeeps(s, t);
  }
}
