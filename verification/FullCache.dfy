/** A run of kernel/log.c over kernel/bio.c at the end of which commit finds no buffer: three operations log 29
    blocks, a reader outside them reads one more, and the operations end. */
module FullCache {
  import opened Blocks
  import opened CacheSpec
  import opened LogSpec
  import opened LogRounds
  import opened CommitSteps
  import opened LogSystem
  import opened LogRuns
  import O = CacheOps

  /** A disk on which recovery has nothing to do, and 30 blocks from x on that are not in the log region. */
  ghost predicate Fresh(d: Disk, lay: Layout, x: nat) {
    && Cleared(d, lay) && lay.size == LOGSIZE && x + NBUF <= |d|
    && (x + NBUF <= lay.start || lay.start + lay.size <= x)
  }

  ghost function BufferOf(d: Disk, x: nat, j: nat, i: nat): Buf {
    if i < j && x + i < |d| then Buf(ROOTDEV, x + i, true, 1, false, d[x + i])
    else Buf(0, 0, false, 0, false, ZeroBlock())
  }

  ghost function Slots(x: nat, j: nat): (m: map<nat, nat>)
    ensures forall q :: (q in m <==> x <= q < x + j) && (q in m ==> m[q] == q - x)
  {
    if j == 0 then map[] else Slots(x, j - 1)[x + j - 1 := j - 1]
  }

  /** The cache with the first j of the blocks logged. */
  ghost function Filled(d: Disk, x: nat, j: nat): Cache {
    Cache(seq(NBUF, i requires 0 <= i < NBUF => BufferOf(d, x, j, i)), seq(NBUF, i => Holders(0, i < j)),
          Slots(x, j), d, d)
  }

  /** What the operations have logged: ten blocks each, nine the last. */
  ghost function OpsOf(x: nat, j: nat): (ops: seq<set<nat>>)
    requires j <= 30
    ensures |ops| == 3
  {
    if j == 0 then [{}, {}, {}]
    else var ops := OpsOf(x, j - 1); ops[(j - 1) / 10 := ops[(j - 1) / 10] + {x + j - 1}]
  }

  ghost function Logged(d: Disk, lay: Layout, x: nat, j: nat): System
    requires j <= 30
  {
    System(Filled(d, x, j), lay, seq(j, i requires 0 <= i < j => x + i), OpsOf(x, j), seq(NBUF, _ => Nobody), Resting,
           [], [d], [])
  }

  lemma FilledOk(d: Disk, x: nat)
    ensures Ok(Filled(d, x, 0))
  {
    CoherentIff(Filled(d, x, 0), NBUF);
  }

  ghost function Start(d: Disk, lay: Layout, x: nat): System {
    Logged(d, lay, x, 0).(ops := [])
  }

  lemma StartStarts(d: Disk, lay: Layout, x: nat)
    requires Fresh(d, lay, x)
    ensures Starts(Start(d, lay, x))
  {
    FilledOk(d, x);
  }

  // ---------- one block ----------

  ghost function Got(d: Disk, lay: Layout, x: nat, j: nat): System
    requires j < NBUF
  {
    Logged(d, lay, x, j).(c := Recycle(Filled(d, x, j), j, x + j))
  }

  ghost function Read(d: Disk, lay: Layout, x: nat, j: nat, w: Who): System
    requires j < NBUF && x + j < |d|
  {
    var s := Got(d, lay, x, j);
    s.(c := Fill(Lock(s.c, j), j), who := s.who[j := w])
  }

  /** bread of block j, into buffer j. */
  lemma ReadOne(states: seq<System>, steps: seq<Step>, d: Disk, lay: Layout, x: nat, j: nat, w: Who)
    returns (states': seq<System>, steps': seq<Step>)
    requires j < NBUF && Fresh(d, lay, x) && IsRun(states, steps) && states[|steps|] == Logged(d, lay, x, j)
    requires w == Reader || w == Client
    ensures IsRun(states', steps') && states'[0] == states[0] && states'[|steps'|] == Read(d, lay, x, j, w)
  {
    var s := Got(d, lay, x, j);
    Extend(states, steps, Bget(x + j, j), s);
    states', steps' := states + [s], steps + [Bget(x + j, j)];
    var t := s.(c := Lock(s.c, j), who := s.who[j := w]);
    Extend(states', steps', Acquire(j, w), t);
    states', steps' := states' + [t], steps' + [Acquire(j, w)];
    Extend(states', steps', ReadIn(j), Read(d, lay, x, j, w));
    states', steps' := states' + [Read(d, lay, x, j, w)], steps' + [ReadIn(j)];
  }

  lemma SlotsKept(d: Disk, x: nat, j: nat)
    requires j < NBUF
    ensures Recycle(Filled(d, x, j), j, x + j).slot == Slots(x, j + 1)
  {
  }

  /** bread, log_write and brelse leave one more block logged. */
  lemma LoggedNext(d: Disk, lay: Layout, x: nat, j: nat, s: System)
    requires j < 29 && x + j < |d| && s == Read(d, lay, x, j, Client)
    ensures |s.c.buf| == |s.c.held| && Pin(s.c, j).buf[j].refcnt > 0 && Pin(s.c, j).held[j].users > 0
    ensures s.(c := Release(Pin(s.c, j), j), lh := s.lh + [x + j], ops := s.ops[j / 10 := s.ops[j / 10] + {x + j}],
               who := s.who[j := Nobody]) == Logged(d, lay, x, j + 1)
  {
    SlotsKept(d, x, j);
    var c := Release(Pin(s.c, j), j);
    assert c.buf == Filled(d, x, j + 1).buf;
    assert c.held == Filled(d, x, j + 1).held;
    assert s.lh + [x + j] == Logged(d, lay, x, j + 1).lh;
    assert s.who[j := Nobody] == Logged(d, lay, x, j + 1).who;
  }

  lemma LogOne(states: seq<System>, steps: seq<Step>, d: Disk, lay: Layout, x: nat, j: nat)
    returns (states': seq<System>, steps': seq<Step>)
    requires j < 29 && Fresh(d, lay, x) && IsRun(states, steps) && states[|steps|] == Logged(d, lay, x, j)
    ensures IsRun(states', steps') && states'[0] == states[0] && states'[|steps'|] == Logged(d, lay, x, j + 1)
  {
    states', steps' := ReadOne(states, steps, d, lay, x, j, Client);
    var s := Read(d, lay, x, j, Client);
    LoggedNext(d, lay, x, j, s);
    var t := s.(c := Pin(s.c, j), lh := s.lh + [x + j], ops := s.ops[j / 10 := s.ops[j / 10] + {x + j}]);
    Extend(states', steps', LogWrite(j / 10, j), t);
    states', steps' := states' + [t], steps' + [LogWrite(j / 10, j)];
    Extend(states', steps', Brelse(j), Logged(d, lay, x, j + 1));
    states', steps' := states' + [Logged(d, lay, x, j + 1)], steps' + [Brelse(j)];
  }

  lemma BeginAll(d: Disk, lay: Layout, x: nat) returns (states: seq<System>, steps: seq<Step>)
    requires Fresh(d, lay, x)
    ensures IsRun(states, steps) && states[0] == Start(d, lay, x) && states[|steps|] == Logged(d, lay, x, 0)
  {
    var s := Start(d, lay, x);
    StartStarts(d, lay, x);
    states, steps := [s], [];
    Extend(states, steps, Begin, s.(ops := [{}]));
    states, steps := states + [s.(ops := [{}])], steps + [Begin];
    Extend(states, steps, Begin, s.(ops := [{}, {}]));
    states, steps := states + [s.(ops := [{}, {}])], steps + [Begin];
    Extend(states, steps, Begin, Logged(d, lay, x, 0));
    states, steps := states + [Logged(d, lay, x, 0)], steps + [Begin];
  }

  lemma {:induction false} LogAll(d: Disk, lay: Layout, x: nat, j: nat) returns (states: seq<System>, steps: seq<Step>)
    requires Fresh(d, lay, x) && j <= 29
    ensures IsRun(states, steps) && states[0] == Start(d, lay, x) && states[|steps|] == Logged(d, lay, x, j)
  {
    if j == 0 {
      states, steps := BeginAll(d, lay, x);
    } else {
      states, steps := LogAll(d, lay, x, j - 1);
      states, steps := LogOne(states, steps, d, lay, x, j - 1);
    }
  }

  // ---------- the end ----------

  lemma EndTwo(states: seq<System>, steps: seq<Step>, s: System) returns (states': seq<System>, steps': seq<Step>)
    requires IsRun(states, steps) && states[|steps|] == s && |s.ops| == 3 && |s.c.latest| == |s.c.disk|
    ensures IsRun(states', steps') && states'[0] == states[0] && states'[|steps'|] == s.(ops := s.ops[2..])
  {
    var t := s.(ops := s.ops[1..]);
    assert s.ops[..0] + s.ops[1..] == s.ops[1..];
    Extend(states, steps, End(0), t);
    states', steps' := states + [t], steps + [End(0)];
    assert t.ops[..0] + t.ops[1..] == s.ops[2..];
    Extend(states', steps', End(0), t.(ops := s.ops[2..]));
    states', steps' := states' + [t.(ops := s.ops[2..])], steps' + [End(0)];
  }

  /** The last end_op begins the commit. */
  lemma EndLast(states: seq<System>, steps: seq<Step>, s: System, t: System)
    returns (states': seq<System>, steps': seq<Step>)
    requires IsRun(states, steps) && states[|steps|] == s && |s.ops| == 1 && s.lh != [] && Client !in s.who
    requires |s.c.latest| == |s.c.disk|
    requires t == s.(ops := [], commit := Round(0, Taking, 0, s.c.disk, s.c.latest),
                     versions := s.versions + [Merged(s.c.disk, s.lh, s.c.latest)])
    ensures IsRun(states', steps') && states'[0] == states[0] && states'[|steps'|] == t
  {
    Extend(states, steps, End(0), t);
    states', steps' := states + [t], steps + [End(0)];
  }

  /** With 29 blocks logged and one more read every buffer is in use. */
  lemma AllInUse(d: Disk, lay: Layout, x: nat, c: Cache)
    requires Fresh(d, lay, x) && c == Read(d, lay, x, 29, Reader).c
    ensures lay.start + 1 < |c.disk| && lay.start + 1 !in c.slot && !O.Spare(c.held)
    ensures |c.latest| == |c.disk|
  {
    SlotsKept(d, x, 29);
  }

  /** A run, from any disk without a transaction, in the end of which commit is about to read the first block of
      the log, and bget panics: the block is not cached and every buffer is in use. */
  lemma CommitWithoutBuffer(d: Disk, lay: Layout, x: nat) returns (states: seq<System>, steps: seq<Step>)
    requires Fresh(d, lay, x)
    ensures IsRun(states, steps) && states[0].c.disk == d && states[0].lay == lay
    ensures var s := states[|steps|];
            && s.commit.Round? && s.commit.j == 0 && s.commit.stage == Taking && |s.lh| == LOGSIZE - 1
            && Target(s.lay, s.lh, 0) == lay.start + 1 < |s.c.disk| && !O.Spare(s.c.held) && !CanGet(s.c, lay.start + 1)
  {
    states, steps := LogAll(d, lay, x, 29);
    states, steps := ReadOne(states, steps, d, lay, x, 29, Reader);
    var s := Read(d, lay, x, 29, Reader);
    AllInUse(d, lay, x, s.c);
    states, steps := EndTwo(states, steps, s);
    var t := s.(ops := s.ops[2..]);
    var u := t.(ops := [], commit := Round(0, Taking, 0, t.c.disk, t.c.latest),
                versions := t.versions + [Merged(t.c.disk, t.lh, t.c.latest)]);
    states, steps := EndLast(states, steps, t, u);
    EveryState(states, steps, |steps|);
    SpareGets(u.c, lay.start + 1);
  }
}
