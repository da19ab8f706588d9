/** A commit of kernel/log.c that finds its buffers goes through all its rounds: the steps of the system add up to
    the rounds of write_log, write_head and install_trans. */
module CommitRuns {
  import opened Blocks
  import opened Wrappers
  import opened CacheSpec
  import opened LogSpec
  import opened LogRounds
  import opened CommitSteps
  import opened LogSystem
  import opened LogRuns
  import O = CacheOps

  /** A round is about to begin: nobody has a buffer that the commit needs, and one buffer is spare. */
  ghost predicate Ready(s: System) {
    && Inv(s) && InRound(s, Taking) && Committer !in s.who
    && O.Calm(s.c, Zone(s.lay, s.lh)) && O.Spare(s.c.held)
  }

  /** A sequence of steps and the states between them. */
  datatype Path = Path(states: seq<System>, steps: seq<Step>)

  ghost predicate Goes(p: Path, r: System, s: System) {
    IsPath(p.states, p.steps) && p.states[0] == r && p.states[|p.steps|] == s
  }

  lemma GoOn(r: System, p: Path, s: System, step: Step, t: System) returns (q: Path)
    requires Goes(p, r, s) && Next(s, step, t)
    ensures Goes(q, r, t)
  {
    q := Path(p.states + [t], p.steps + [step]);
  }

  /** The states of a bread of block k into buffer a, by the commit. */
  ghost function Got(s: System, k: nat, a: nat): System
    requires O.Picks(s.c, k, a)
  {
    s.(c := if k in s.c.slot then Hit(s.c, a) else Recycle(s.c, a, k))
  }

  ghost function Locked(s: System, k: nat, a: nat): System
    requires O.Picks(s.c, k, a) && a < |s.who|
  {
    s.(c := Lock(Got(s, k, a).c, a), who := s.who[a := Committer])
  }

  ghost function Read(s: System, k: nat, a: nat): System
    requires O.Picks(s.c, k, a) && a < |s.who|
  {
    s.(c := O.Bread(s.c, k, a), who := s.who[a := Committer])
  }

  lemma BreadSteps(s: System, k: nat, a: nat)
    requires Ok(s.c) && |s.who| == |s.c.buf| && Taken(s, k) && O.Picks(s.c, k, a)
    ensures Next(s, Bget(k, a), Got(s, k, a))
    ensures Next(Got(s, k, a), Acquire(a, Committer), Locked(s, k, a))
    ensures Next(Locked(s, k, a), ReadIn(a), Read(s, k, a))
  {
    BufAt(s.c, a);
    if k in s.c.slot {
      SlotAt(s.c, k);
    }
  }

  lemma BreadRuns(r: System, p: Path, s: System, k: nat, a: nat) returns (q: Path)
    requires Goes(p, r, s) && Ok(s.c) && |s.who| == |s.c.buf| && Taken(s, k) && O.Picks(s.c, k, a)
    ensures Goes(q, r, Read(s, k, a))
  {
    BreadSteps(s, k, a);
    q := GoOn(r, p, s, Bget(k, a), Got(s, k, a));
    q := GoOn(r, q, Got(s, k, a), Acquire(a, Committer), Locked(s, k, a));
    q := GoOn(r, q, Locked(s, k, a), ReadIn(a), Read(s, k, a));
  }

  // ---------- filling in, writing, releasing ----------

  ghost function FilledBy(s: System, x: nat, d: Block): System
    requires x < |s.c.buf| && s.c.buf[x].blockno < |s.c.latest| && s.commit.Round?
  {
    s.(c := CacheSpec.Modify(s.c, x, d), commit := s.commit.(stage := Moved))
  }

  ghost function WrittenBy(s: System, x: nat, d: Block): System
    requires x < |s.c.buf| && s.c.buf[x].blockno < |s.c.latest| == |s.c.disk| && s.commit.Round? && |s.versions| >= 2
  {
    var c := Write(CacheSpec.Modify(s.c, x, d), x);
    s.(c := c, commit := s.commit.(stage := Written), history := s.history + [c.disk],
       mark := s.mark + [|s.versions| - 2])
  }

  /** memmove or the loop of write_head, and bwrite. */
  lemma WriteRuns(r: System, p: Path, s: System, x: nat, y: nat, d: Block) returns (q: Path)
    requires Goes(p, r, s) && InRound(s, Taking) && Holds(s, x, Committer)
    requires s.c.buf[x].blockno == TargetOf(s) < |s.c.latest| == |s.c.disk| && |s.versions| >= 2
    requires Copies(s, x, y, FilledBy(s, x, d))
    ensures Goes(q, r, WrittenBy(s, x, d))
  {
    q := GoOn(r, p, s, Bcopy(x, y), FilledBy(s, x, d));
    q := GoOn(r, q, FilledBy(s, x, d), Bwrite(x), WrittenBy(s, x, d));
  }

  ghost function DroppedBy(s: System, x: nat): System
    requires x < |s.c.buf| == |s.c.held| == |s.who| && s.c.buf[x].refcnt > 0 && s.c.held[x].users > 0
  {
    s.(c := Release(s.c, x), who := s.who[x := Nobody])
  }

  /** The two brelses. */
  lemma DropRuns(r: System, p: Path, s: System, x: nat, y: nat, t: System) returns (q: Path)
    requires Goes(p, r, s) && RoundOver(s) && x != y
    requires Holds(s, x, Committer) && Holds(s, y, Committer) && O.CanRelease(s.c, x) && O.CanRelease(s.c, y)
    requires t == s.(c := O.ReleaseTwo(s.c, x, y), who := s.who[x := Nobody][y := Nobody])
    ensures Goes(q, r, t)
  {
    q := GoOn(r, p, s, Bdrop(x), DroppedBy(s, x));
    q := GoOn(r, q, DroppedBy(s, x), Bdrop(y), t);
  }

  /** From s a round leads to t, where the next one can begin. */
  ghost predicate RoundGoes(q: Path, r: System, s: System, t: System) {
    && Goes(q, r, t) && Ready(t) && t.lh == s.lh && t.versions == s.versions
    && s.commit.Round? && t.commit.j == s.commit.j + 1
  }

  lemma AdvanceRuns(r: System, p: Path, s: System, t: System) returns (q: Path)
    requires Inv(r) && Goes(p, r, s) && RoundOver(s) && Committer !in s.who && s.commit.j + 1 < 2 * |s.lh| + 2
    requires O.Calm(s.c, Zone(s.lay, s.lh)) && O.Spare(s.c.held)
    requires t == s.(commit := s.commit.(j := s.commit.j + 1, stage := Taking))
    ensures RoundGoes(q, r, s, t)
  {
    PathKeeps(p.states, p.steps, |p.steps|);
    AdvancesKeeps(s, t);
    q := GoOn(r, p, s, Advance, t);
  }

  // ---------- two buffers ----------

  lemma Buffers(s: System, k: nat, l: nat) returns (a: nat, b: nat)
    requires Ready(s) && k != l && k < |s.c.disk| && PinnedAt(s.c, l)
    requires k in Zone(s.lay, s.lh) && l in Zone(s.lay, s.lh)
    ensures O.PicksTwo(s.c, k, a, l, b)
  {
    O.SpareBreadPinned(s.c, k, l, Zone(s.lay, s.lh));
    a := PickOne(s.c, k);
    O.BreadOk(s.c, k, a);
    b := PickOne(O.Bread(s.c, k, a), l);
  }

  lemma PickOne(c: Cache, k: nat) returns (a: nat)
    requires Ok(c) && O.CanBread(c, k)
    ensures O.Picks(c, k, a)
  {
    if k in c.slot {
      SlotAt(c, k);
      a := c.slot[k];
    } else {
      a :| 0 <= a < |c.buf| && c.buf[a].refcnt == 0;
    }
  }

  /** The two breads of a round. */
  lemma ReadRuns(r: System, p: Path, s: System, k: nat, a: nat, l: nat, b: nat, t: System)
    returns (q: Path)
    requires Goes(p, r, s) && Ready(s) && Taken(s, k) && Taken(s, l) && k != l && O.PicksTwo(s.c, k, a, l, b)
    requires |s.who| == |s.c.buf|
    requires t == s.(c := O.BreadTwo(s.c, k, a, l, b), who := s.who[a := Committer][b := Committer])
    ensures Goes(q, r, t)
  {
    O.BreadOk(s.c, k, a);
    q := BreadRuns(r, p, s, k, a);
    q := BreadRuns(r, q, Read(s, k, a), l, b);
  }

  lemma Freed(c: Cache, who: seq<Who>, a: nat, b: nat)
    requires Locks(c, who) && a < |who| && b < |who| && !c.buf[a].locked && !c.buf[b].locked
    ensures who[a := Committer][b := Committer][b := Nobody][a := Nobody] == who
    ensures who[a := Committer][b := Committer][a := Nobody][b := Nobody] == who
  {
    LocksIff(c, who, |who|);
  }

  /** The buffers of a round: a has block k of the log, b the logged block l. */
  ghost predicate Opened(s: System, k: nat, a: nat, l: nat, b: nat) {
    Ready(s) && k != l && PinnedAt(s.c, l) && O.PicksTwo(s.c, k, a, l, b) && |s.versions| >= 2
  }

  /** The state after the two breads. */
  ghost function Open(s: System, k: nat, a: nat, l: nat, b: nat): System
    requires Opened(s, k, a, l, b) && a < |s.who| && b < |s.who|
  {
    s.(c := O.BreadTwo(s.c, k, a, l, b), who := s.who[a := Committer][b := Committer])
  }

  lemma InZones(s: System, k: nat, l: nat)
    requires LogOk(s) && InRound(s, Taking) && !WritesHead(s.lh, s.commit.j)
    requires k == s.lay.start + Entry(s.lh, s.commit.j) + 1 && l == s.lh[Entry(s.lh, s.commit.j)]
    ensures k != l && k < |s.c.disk| && k in Zone(s.lay, s.lh) && l in Zone(s.lay, s.lh) && Taken(s, k) && Taken(s, l)
  {
    RegionMeans(s);
  }

  lemma EntryPinned(s: System)
    requires LogOk(s) && InRound(s, Taking) && !WritesHead(s.lh, s.commit.j)
    ensures PinnedAt(s.c, s.lh[Entry(s.lh, s.commit.j)])
  {
    PinnedEntry(s.c, s.lh[s.commit.unpinned..], Entry(s.lh, s.commit.j) - s.commit.unpinned);
  }

  lemma TwoVersions(s: System)
    requires LogOk(s) && s.commit.Round?
    ensures |s.versions| >= 2
  {
    BeganMeans(s);
  }

  lemma Chosen(s: System, k: nat, l: nat) returns (a: nat, b: nat)
    requires Ready(s) && !WritesHead(s.lh, s.commit.j)
    requires k == s.lay.start + Entry(s.lh, s.commit.j) + 1 && l == s.lh[Entry(s.lh, s.commit.j)]
    ensures Opened(s, k, a, l, b) && Taken(s, k) && Taken(s, l)
  {
    TwoVersions(s);
    InZones(s, k, l);
    EntryPinned(s);
    a, b := Buffers(s, k, l);
  }

  lemma Opens(r: System, p: Path, s: System, k: nat, l: nat) returns (a: nat, b: nat, q: Path)
    requires Goes(p, r, s) && Ready(s) && !WritesHead(s.lh, s.commit.j)
    requires k == s.lay.start + Entry(s.lh, s.commit.j) + 1 && l == s.lh[Entry(s.lh, s.commit.j)]
    ensures Opened(s, k, a, l, b) && a < |s.who| && b < |s.who| && Goes(q, r, Open(s, k, a, l, b))
  {
    a, b := Chosen(s, k, l);
    q := ReadRuns(r, p, s, k, a, l, b, Open(s, k, a, l, b));
  }

  // ---------- one round of write_log ----------

  lemma LogCopies(s: System, k: nat, a: nat, l: nat, b: nat, t: System)
    requires Opened(s, k, a, l, b) && a < |s.who| && b < |s.who| && t == Open(s, k, a, l, b)
    requires s.commit.j < |s.lh| && k == TargetOf(s) && Some(l) == Source(s.lay, s.lh, s.commit.j)
    ensures Holds(t, a, Committer) && Holds(t, b, Committer) && t.c.buf[a].blockno == k < |t.c.latest| == |t.c.disk|
    ensures Copies(t, a, b, FilledBy(t, a, t.c.buf[b].data))
    ensures a != b && WrittenBy(t, a, t.c.buf[b].data).c == O.CopyWrite(t.c, a, b)
    ensures O.CanRelease(O.CopyWrite(t.c, a, b), a) && O.CanRelease(O.CopyWrite(t.c, a, b), b)
  {
    O.LogRoundBody(s.c, k, a, l, b, Zone(s.lay, s.lh));
    O.BreadTwoOk(s.c, k, a, l, b, Zone(s.lay, s.lh));
  }

  lemma LogCloses(s: System, k: nat, a: nat, l: nat, b: nat, t: System, d: Cache)
    requires Opened(s, k, a, l, b) && a < |s.who| && b < |s.who| && t == Open(s, k, a, l, b)
    requires a != b && t.c.buf[a].blockno == k < |t.c.latest| == |t.c.disk|
    requires O.CanRelease(O.CopyWrite(t.c, a, b), a) && O.CanRelease(O.CopyWrite(t.c, a, b), b)
    requires d == O.ReleaseTwo(O.CopyWrite(t.c, a, b), b, a)
    ensures O.Calm(d, Zone(s.lay, s.lh)) && O.Spare(d.held) && t.who[b := Nobody][a := Nobody] == s.who
  {
    O.BreadTwoOk(s.c, k, a, l, b, Zone(s.lay, s.lh));
    O.LogRoundDone(s.c, k, a, l, b, d, Zone(s.lay, s.lh));
    Freed(s.c, s.who, a, b);
  }

  lemma LogRoundRuns(r: System, p: Path, s: System, k: nat, l: nat) returns (t: System, q: Path)
    requires Inv(r) && Goes(p, r, s) && Ready(s) && s.commit.j < |s.lh|
    requires k == TargetOf(s) && Some(l) == Source(s.lay, s.lh, s.commit.j)
    ensures RoundGoes(q, r, s, t)
  {
    var a, b;
    a, b, q := Opens(r, p, s, k, l);
    var u := Open(s, k, a, l, b);
    LogCopies(s, k, a, l, b, u);
    q := WriteRuns(r, q, u, a, b, u.c.buf[b].data);
    var w := WrittenBy(u, a, u.c.buf[b].data);
    var v := w.(c := O.ReleaseTwo(w.c, b, a), who := w.who[b := Nobody][a := Nobody]);
    q := DropRuns(r, q, w, b, a, v);
    LogCloses(s, k, a, l, b, u, v.c);
    t := v.(commit := v.commit.(j := v.commit.j + 1, stage := Taking));
    q := AdvanceRuns(r, q, v, t);
  }

  // ---------- one round of install_trans ----------

  ghost function UnpinnedBy(s: System, b: nat): System
    requires b < |s.c.buf| == |s.c.held| && s.c.buf[b].refcnt > 0 && s.commit.Round?
  {
    s.(c := Unpin(s.c, b), commit := s.commit.(unpinned := s.commit.unpinned + 1))
  }

  lemma InstallBody(s: System, k: nat, a: nat, l: nat, b: nat, c1: Cache)
    requires Opened(s, k, a, l, b) && Installs(s.lh, s.commit.j) && Some(k) == Source(s.lay, s.lh, s.commit.j)
    requires c1 == O.BreadTwo(s.c, k, a, l, b)
    ensures a != b && Ok(c1) && Owned(c1, a) && Owned(c1, b) && c1.buf[a].blockno == k
    ensures c1.buf[b].blockno == l < |c1.disk| == |c1.latest|
    ensures var c2 := O.CopyWrite(c1, b, a);
            && c2.buf[b].refcnt > 0 && |c2.buf| == |c2.held|
            && O.CanRelease(Unpin(c2, b), a) && O.CanRelease(Unpin(c2, b), b) && Ok(Unpin(c2, b))
  {
    RegionIff(s.c, s.lay, s.lh, s.lay.size, None);
    RegionMeans(s);
    O.InstallRoundBody(s.c, k, a, l, b, false, Zone(s.lay, s.lh));
    O.BreadTwoOk(s.c, k, a, l, b, Zone(s.lay, s.lh));
  }

  lemma InstallCloses(s: System, k: nat, a: nat, l: nat, b: nat, c1: Cache, d: Cache)
    requires Opened(s, k, a, l, b) && c1 == O.BreadTwo(s.c, k, a, l, b) && a != b
    requires c1.buf[b].blockno == l < |c1.disk| == |c1.latest| && O.CopyWrite(c1, b, a).buf[b].refcnt > 0
    requires var c3 := O.Unpinned(O.CopyWrite(c1, b, a), b, false);
             Ok(c3) && O.CanRelease(c3, a) && O.CanRelease(c3, b) && d == O.ReleaseTwo(c3, a, b)
    ensures O.Calm(d, Zone(s.lay, s.lh)) && O.Spare(d.held) && a < |s.who| && b < |s.who|
    ensures s.who[a := Committer][b := Committer][a := Nobody][b := Nobody] == s.who
  {
    O.BreadTwoOk(s.c, k, a, l, b, Zone(s.lay, s.lh));
    O.InstallRoundDone(s.c, k, a, l, b, false, d, Zone(s.lay, s.lh));
    O.PinnedIsPicked(s.c, k, a, l, b);
    StillSpare(s.c.held, b);
    Freed(s.c, s.who, a, b);
  }

  lemma InstallOpens(s: System, k: nat, a: nat, l: nat, b: nat, u: System, w: System)
    requires Opened(s, k, a, l, b) && Installs(s.lh, s.commit.j) && a < |s.who| && b < |s.who|
    requires l == TargetOf(s) && Some(k) == Source(s.lay, s.lh, s.commit.j) && u == Open(s, k, a, l, b)
    requires b < |u.c.buf| && a < |u.c.buf| && u.c.buf[b].blockno < |u.c.latest| == |u.c.disk|
    requires w == WrittenBy(u, b, u.c.buf[a].data)
    ensures Holds(u, a, Committer) && Holds(u, b, Committer) && a != b && u.commit.unpinned == Entry(u.lh, u.commit.j)
    ensures u.c.buf[b].blockno == TargetOf(u) && Some(u.c.buf[a].blockno) == Source(u.lay, u.lh, u.commit.j)
    ensures w.c == O.CopyWrite(u.c, b, a) && |w.c.buf| == |w.c.held| && w.c.buf[b].refcnt > 0
    ensures Ok(Unpin(w.c, b)) && O.CanRelease(Unpin(w.c, b), a) && O.CanRelease(Unpin(w.c, b), b)
  {
    InstallBody(s, k, a, l, b, u.c);
  }

  /** From the two breads to the brelses. */
  lemma InstallMoves(r: System, p: Path, u: System, a: nat, b: nat, w: System) returns (q: Path)
    requires Goes(p, r, u) && InRound(u, Taking) && Installs(u.lh, u.commit.j)
    requires Holds(u, a, Committer) && Holds(u, b, Committer) && a != b && |u.versions| >= 2
    requires u.c.buf[b].blockno == TargetOf(u) < |u.c.latest| == |u.c.disk|
    requires Some(u.c.buf[a].blockno) == Source(u.lay, u.lh, u.commit.j) && u.commit.unpinned == Entry(u.lh, u.commit.j)
    requires w == WrittenBy(u, b, u.c.buf[a].data) && w.c.buf[b].refcnt > 0
    ensures RoundOver(UnpinnedBy(w, b)) && Goes(q, r, UnpinnedBy(w, b))
    ensures Holds(UnpinnedBy(w, b), a, Committer) && Holds(UnpinnedBy(w, b), b, Committer)
  {
    q := WriteRuns(r, p, u, b, a, u.c.buf[a].data);
    q := GoOn(r, q, w, Bunpin(b), UnpinnedBy(w, b));
  }

  lemma InstallRoundRuns(r: System, p: Path, s: System, k: nat, l: nat) returns (t: System, q: Path)
    requires Inv(r) && Goes(p, r, s) && Ready(s) && Installs(s.lh, s.commit.j)
    requires l == TargetOf(s) && Some(k) == Source(s.lay, s.lh, s.commit.j)
    ensures RoundGoes(q, r, s, t)
  {
    var a, b;
    a, b, q := Opens(r, p, s, k, l);
    var u := Open(s, k, a, l, b);
    O.BreadTwoOk(s.c, k, a, l, b, Zone(s.lay, s.lh));
    var w := WrittenBy(u, b, u.c.buf[a].data);
    InstallOpens(s, k, a, l, b, u, w);
    q := InstallMoves(r, q, u, a, b, w);
    var x := UnpinnedBy(w, b);
    var v := x.(c := O.ReleaseTwo(x.c, a, b), who := x.who[a := Nobody][b := Nobody]);
    q := DropRuns(r, q, x, a, b, v);
    InstallCloses(s, k, a, l, b, u.c, v.c);
    t := v.(commit := v.commit.(j := v.commit.j + 1, stage := Taking));
    q := AdvanceRuns(r, q, v, t);
  }

  // ---------- write_head ----------

  lemma HeadOpens(s: System) returns (a: nat)
    requires Ready(s) && WritesHead(s.lh, s.commit.j)
    ensures Taken(s, s.lay.start) && O.Picks(s.c, s.lay.start, a) && a < |s.who| == |s.c.buf| && |s.versions| >= 2
    ensures s.who[a := Committer][a := Nobody] == s.who && |s.c.latest| == |s.c.disk| && Loggable(s.c.disk, s.lay, s.lh)
  {
    CommitMeans(s);
    TwoVersions(s);
    O.SpareBread(s.c, s.lay.start, Zone(s.lay, s.lh));
    a := PickOne(s.c, s.lay.start);
    O.BreadOk(s.c, s.lay.start, a);
    LocksIff(s.c, s.who, |s.who|);
  }

  lemma HeadCopies(s: System, a: nat, t: System, d: Block)
    requires Ready(s) && WritesHead(s.lh, s.commit.j) && Loggable(s.c.disk, s.lay, s.lh) && |s.c.latest| == |s.c.disk|
    requires O.Picks(s.c, s.lay.start, a) && a < |s.who| == |s.c.buf| && t == Read(s, s.lay.start, a)
    requires d == EncodeHead(t.c.buf[a].data, HeadList(s.lh, s.commit.j))
    ensures Holds(t, a, Committer) && t.c.buf[a].blockno == TargetOf(t) < |t.c.latest| == |t.c.disk|
    ensures Copies(t, a, a, FilledBy(t, a, d))
    ensures var c2 := Write(CacheSpec.Modify(t.c, a, d), a);
            O.CanRelease(c2, a) && O.Calm(Release(c2, a), Zone(s.lay, s.lh)) && Release(c2, a).held == s.c.held
  {
    O.HeadRound(s.c, s.lay.start, a, d, Zone(s.lay, s.lh));
    O.BreadOk(s.c, s.lay.start, a);
  }

  /** The header, up to its brelse. */
  lemma HeadMoves(r: System, p: Path, s: System) returns (v: System, q: Path)
    requires Goes(p, r, s) && Ready(s) && WritesHead(s.lh, s.commit.j)
    ensures Goes(q, r, v) && O.Calm(v.c, Zone(s.lay, s.lh)) && O.Spare(v.c.held) && RoundOver(v)
    ensures v == s.(c := v.c, commit := s.commit.(stage := Written), history := v.history, mark := v.mark)
  {
    var a := HeadOpens(s);
    q := BreadRuns(r, p, s, s.lay.start, a);
    var u := Read(s, s.lay.start, a);
    var d := EncodeHead(u.c.buf[a].data, HeadList(s.lh, s.commit.j));
    HeadCopies(s, a, u, d);
    q := WriteRuns(r, q, u, a, a, d);
    v := DroppedBy(WrittenBy(u, a, d), a);
    q := GoOn(r, q, WrittenBy(u, a, d), Bdrop(a), v);
  }

  lemma RoundRuns(r: System, p: Path, s: System) returns (t: System, q: Path)
    requires Inv(r) && Goes(p, r, s) && Ready(s) && s.commit.j < 2 * |s.lh| + 1
    ensures RoundGoes(q, r, s, t)
  {
    if s.commit.j < |s.lh| {
      t, q := LogRoundRuns(r, p, s, TargetOf(s), s.lh[s.commit.j]);
    } else if s.commit.j == |s.lh| {
      var v;
      v, q := HeadMoves(r, p, s);
      t := v.(commit := v.commit.(j := v.commit.j + 1, stage := Taking));
      q := AdvanceRuns(r, q, v, t);
    } else {
      t, q := InstallRoundRuns(r, p, s, s.lay.start + Entry(s.lh, s.commit.j) + 1, TargetOf(s));
    }
  }

  lemma {:induction false} RoundsEnd(r: System, p: Path, s: System) returns (t: System, q: Path)
    requires Inv(r) && Goes(p, r, s) && Ready(s)
    ensures Goes(q, r, t) && t.commit.Resting? && t.versions == s.versions
    decreases 2 * |s.lh| + 2 - s.commit.j
  {
    if s.commit.j == 2 * |s.lh| + 1 {
      var v;
      v, q := HeadMoves(r, p, s);
      t := v.(commit := Resting, lh := []);
      q := GoOn(r, q, v, Advance, t);
    } else {
      t, q := RoundRuns(r, p, s);
      t, q := RoundsEnd(r, q, t);
    }
  }

  /** So a commit that finds its buffers ends: its steps lead from s to where the system rests, with the version
      that the commit makes durable. */
  lemma CommitEnds(s: System) returns (t: System, q: Path)
    requires Ready(s)
    ensures Goes(q, s, t) && Inv(t) && t.commit.Resting? && t.versions == s.versions
  {
    t, q := RoundsEnd(s, Path([s], []), s);
    PathKeeps(q.states, q.steps, |q.steps|);
  }
}
