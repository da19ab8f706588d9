/** What the redo log of kernel/log.c does to the disk, one block write at a time, and
    why a crash between any two of those writes is harmless. */
module LogSpec {
  import opened Blocks

  const MAXOPBLOCKS := 10
  const LOGSIZE := 30

  type Disk = seq<Block>

  /** log.start and log.size: a header block followed by size - 1 data blocks. */
  datatype Layout = Layout(start: nat, size: nat)

  ghost predicate InLog(lay: Layout, k: nat) {
    lay.start <= k < lay.start + lay.size
  }

  ghost predicate Fits(d: Disk, lay: Layout) {
    0 < lay.size && lay.start + lay.size <= |d| < TWO32
  }

  /** A list of logged blocks that the log region can hold: blocks of the disk outside it. */
  ghost predicate Loggable(d: Disk, lay: Layout, lh: seq<nat>) {
    && Fits(d, lay)
    && |lh| <= LOGSIZE && |lh| < lay.size
    && (forall t :: 0 <= t < |lh| ==> lh[t] < |d| && !InLog(lay, lh[t]))
  }

  ghost predicate SameHome(d: Disk, e: Disk, lay: Layout) {
    |d| == |e| && forall k :: 0 <= k < |d| && !InLog(lay, k) ==> d[k] == e[k]
  }

  // ---------- the header block ----------

  /** The first c block numbers are put into the header. */
  function PutBlocks(b: Block, lh: seq<nat>, c: nat): (r: Block)
    requires c <= |lh| <= LOGSIZE && forall i :: 0 <= i < |lh| ==> lh[i] < TWO32
  {
    if c == 0 then b else PutWord(PutBlocks(b, lh, c - 1), c, lh[c-1])
  }

  function EncodeHead(b: Block, lh: seq<nat>): (r: Block)
    requires |lh| <= LOGSIZE && forall i :: 0 <= i < |lh| ==> lh[i] < TWO32
  {
    PutBlocks(PutWord(b, 0, |lh|), lh, |lh|)
  }

  function HeadCount(b: Block): uint {
    GetWord(b, 0)
  }

  function DecodeHead(b: Block): (lh: seq<nat>)
    requires HeadCount(b) <= LOGSIZE
  {
    seq(HeadCount(b), i requires 0 <= i < HeadCount(b) => GetWord(b, 1 + i))
  }

  lemma {:induction false} PutBlocksWords(b: Block, lh: seq<nat>, c: nat, j: nat)
    requires c <= |lh| <= LOGSIZE && (forall i :: 0 <= i < |lh| ==> lh[i] < TWO32) && j <= LOGSIZE
    ensures GetWord(PutBlocks(b, lh, c), j) == if 1 <= j <= c then lh[j-1] else GetWord(b, j)
  {
    if c > 0 {
      PutBlocksWords(b, lh, c - 1, j);
      GetPut(PutBlocks(b, lh, c - 1), c, lh[c-1], j);
    }
  }

  /** read_head reads back what write_head wrote, whatever the block held before. */
  lemma HeadRoundTrip(b: Block, lh: seq<nat>)
    requires |lh| <= LOGSIZE && forall i :: 0 <= i < |lh| ==> lh[i] < TWO32
    ensures HeadCount(EncodeHead(b, lh)) == |lh| && DecodeHead(EncodeHead(b, lh)) == lh
  {
    var r := EncodeHead(b, lh);
    PutBlocksWords(PutWord(b, 0, |lh|), lh, |lh|, 0);
    GetPut(b, 0, |lh|, 0);
    forall i | 0 <= i < |lh| ensures DecodeHead(r)[i] == lh[i] {
      PutBlocksWords(PutWord(b, 0, |lh|), lh, |lh|, i + 1);
    }
  }

  // ---------- the disk after each block write ----------

  /** The transaction on disk: what recovery would install. */
  ghost predicate HeadOk(d: Disk, lay: Layout) {
    Fits(d, lay) && HeadCount(d[lay.start]) <= LOGSIZE && Loggable(d, lay, DecodeHead(d[lay.start]))
  }

  ghost function Header(d: Disk, lay: Layout): seq<nat>
    requires HeadOk(d, lay)
  {
    DecodeHead(d[lay.start])
  }

  /** write_log after t of its writes; mem is what the cache holds for each block. */
  ghost function LogCopy(d: Disk, lay: Layout, lh: seq<nat>, mem: Disk, t: nat): (e: Disk)
    requires Loggable(d, lay, lh) && |mem| == |d| && t <= |lh|
    ensures |e| == |d|
  {
    if t == 0 then d else LogCopy(d, lay, lh, mem, t - 1)[lay.start + t := mem[lh[t-1]]]
  }

  /** install_trans after t of its writes. */
  ghost function Install(d: Disk, lay: Layout, lh: seq<nat>, t: nat): (e: Disk)
    requires Loggable(d, lay, lh) && t <= |lh|
    ensures |e| == |d|
  {
    if t == 0 then d else
      var e := Install(d, lay, lh, t - 1);
      e[lh[t-1] := e[lay.start + t]]
  }

  /** write_head */
  ghost function PutHeader(d: Disk, lay: Layout, lh: seq<nat>): Disk
    requires Loggable(d, lay, lh)
  {
    d[lay.start := EncodeHead(d[lay.start], lh)]
  }

  /** install_trans, then log.lh.n = 0 and write_head: the disk after j of these n + 1 writes. */
  ghost function Redo(d: Disk, lay: Layout, lh: seq<nat>, j: nat): Disk
    requires Loggable(d, lay, lh)
  {
    if j <= |lh| then Install(d, lay, lh, j) else PutHeader(Install(d, lay, lh, |lh|), lay, [])
  }

  /** The disk after k of the 2n + 2 block writes of commit. */
  ghost function CommitDisk(d: Disk, lay: Layout, lh: seq<nat>, mem: Disk, k: nat): Disk
    requires Loggable(d, lay, lh) && |mem| == |d| && k <= 2 * |lh| + 2
  {
    if k <= |lh| then LogCopy(d, lay, lh, mem, k)
    else Redo(PutHeader(LogCopy(d, lay, lh, mem, |lh|), lay, lh), lay, lh, k - |lh| - 1)
  }

  /** The disk after k of the n + 1 block writes of recover_from_log. */
  ghost function RecoverDisk(d: Disk, lay: Layout, k: nat): Disk
    requires HeadOk(d, lay)
  {
    Redo(d, lay, Header(d, lay), k)
  }

  /** Every disk that the first k writes of commit leave behind, in order. */
  ghost function CommitTrace(d: Disk, lay: Layout, lh: seq<nat>, mem: Disk, k: nat): (h: seq<Disk>)
    requires Loggable(d, lay, lh) && |mem| == |d| && k <= 2 * |lh| + 2
    ensures |h| == k
    ensures forall i :: 0 <= i < k ==> h[i] == CommitDisk(d, lay, lh, mem, i + 1)
  {
    if k == 0 then [] else CommitTrace(d, lay, lh, mem, k - 1) + [CommitDisk(d, lay, lh, mem, k)]
  }

  /** Every disk that the first j writes of install_trans and the final write_head leave behind. */
  ghost function RedoTrace(d: Disk, lay: Layout, lh: seq<nat>, j: nat): (h: seq<Disk>)
    requires Loggable(d, lay, lh)
    ensures |h| == j
    ensures forall i :: 0 <= i < j ==> h[i] == Redo(d, lay, lh, i + 1)
  {
    if j == 0 then [] else RedoTrace(d, lay, lh, j - 1) + [Redo(d, lay, lh, j)]
  }

  /** commit is write_log and write_head, then what recovery does. */
  lemma CommitHistory(h: seq<Disk>, d: Disk, lay: Layout, lh: seq<nat>, mem: Disk)
    requires Loggable(d, lay, lh) && |mem| == |d|
    ensures var c, n := CommitDisk(d, lay, lh, mem, |lh| + 1), |lh|;
            && Loggable(c, lay, lh) && CommitDisk(d, lay, lh, mem, 2 * n + 2) == Redo(c, lay, lh, n + 1)
            && h + CommitTrace(d, lay, lh, mem, n + 1) + RedoTrace(c, lay, lh, n + 1) ==
               h + CommitTrace(d, lay, lh, mem, 2 * n + 2)
  {
    var c, n := CommitDisk(d, lay, lh, mem, |lh| + 1), |lh|;
    assert CommitTrace(d, lay, lh, mem, n + 1) + RedoTrace(c, lay, lh, n + 1) ==
      CommitTrace(d, lay, lh, mem, 2 * n + 2);
  }

  /** The disk after a recovery that was not interrupted. */
  ghost function Recovered(d: Disk, lay: Layout): Disk
    requires HeadOk(d, lay)
  {
    RecoverDisk(d, lay, |Header(d, lay)| + 1)
  }

  /** The home blocks with the logged ones replaced by their cached contents. */
  ghost predicate Updated(d: Disk, lh: seq<nat>, mem: Disk, e: Disk, lay: Layout)
    requires |mem| == |d|
  {
    |e| == |d| && forall k :: 0 <= k < |d| && !InLog(lay, k) ==> e[k] == if k in lh then mem[k] else d[k]
  }

  // ---------- pointwise meaning ----------

  /** write_log touches log data blocks only, */
  lemma {:induction false} LogCopyFrame(d: Disk, lay: Layout, lh: seq<nat>, mem: Disk, t: nat, k: nat)
    requires Loggable(d, lay, lh) && |mem| == |d| && t <= |lh| && k < |d|
    requires !(lay.start < k <= lay.start + t)
    ensures LogCopy(d, lay, lh, mem, t)[k] == d[k]
  {
    if t > 0 {
      LogCopyFrame(d, lay, lh, mem, t - 1, k);
    }
  }

  /** and leaves the cached contents of lh[i] in data block i. */
  lemma {:induction false} LogCopyAt(d: Disk, lay: Layout, lh: seq<nat>, mem: Disk, t: nat, i: nat)
    requires Loggable(d, lay, lh) && |mem| == |d| && i < t <= |lh|
    ensures LogCopy(d, lay, lh, mem, t)[lay.start + 1 + i] == mem[lh[i]]
  {
    if i < t - 1 {
      LogCopyAt(d, lay, lh, mem, t - 1, i);
    }
  }

  /** What install_trans leaves in block k: the last of the first t log entries for it. */
  ghost function Installed(d: Disk, lay: Layout, lh: seq<nat>, t: nat, k: nat): Block
    requires Loggable(d, lay, lh) && t <= |lh| && k < |d|
  {
    if t == 0 then d[k] else if lh[t-1] == k then d[lay.start + t] else Installed(d, lay, lh, t - 1, k)
  }

  lemma {:induction false} InstallAt(d: Disk, lay: Layout, lh: seq<nat>, t: nat, k: nat)
    requires Loggable(d, lay, lh) && t <= |lh| && k < |d|
    ensures Install(d, lay, lh, t)[k] == Installed(d, lay, lh, t, k)
    ensures InLog(lay, k) || k !in lh[..t] ==> Install(d, lay, lh, t)[k] == d[k]
  {
    if t > 0 {
      InstallAt(d, lay, lh, t - 1, k);
      InstallAt(d, lay, lh, t - 1, lay.start + t);
      assert lh[..t] == lh[..t-1] + [lh[t-1]];
    }
  }

  /** The result for a logged block depends on the log region only. */
  lemma {:induction false} InstalledFromLog(d: Disk, e: Disk, lay: Layout, lh: seq<nat>, t: nat, k: nat)
    requires Loggable(d, lay, lh) && |e| == |d| && t <= |lh| && k < |d|
    requires forall j :: lay.start < j < lay.start + lay.size ==> e[j] == d[j]
    requires k in lh[..t] || e[k] == d[k]
    ensures Loggable(e, lay, lh) && Installed(d, lay, lh, t, k) == Installed(e, lay, lh, t, k)
  {
    if t > 0 && lh[t-1] != k {
      assert lh[..t] == lh[..t-1] + [lh[t-1]];
      InstalledFromLog(d, e, lay, lh, t - 1, k);
    }
  }

  // ---------- crashes ----------

  lemma HeaderWritten(d: Disk, lay: Layout, lh: seq<nat>)
    requires Loggable(d, lay, lh)
    ensures HeadOk(PutHeader(d, lay, lh), lay) && Header(PutHeader(d, lay, lh), lay) == lh
  {
    HeadRoundTrip(d[lay.start], lh);
  }

  lemma InstallKeepsHeader(d: Disk, lay: Layout, t: nat)
    requires HeadOk(d, lay) && t <= |Header(d, lay)|
    ensures HeadOk(Install(d, lay, Header(d, lay), t), lay)
    ensures Header(Install(d, lay, Header(d, lay), t), lay) == Header(d, lay)
  {
    InstallAt(d, lay, Header(d, lay), t, lay.start);
  }

  /** Installing again after t installs, from the start, gives the same home blocks. */
  lemma Reinstall(d: Disk, lay: Layout, lh: seq<nat>, t: nat)
    requires Loggable(d, lay, lh) && t <= |lh|
    ensures Loggable(Install(d, lay, lh, t), lay, lh)
    ensures SameHome(Install(Install(d, lay, lh, t), lay, lh, |lh|), Install(d, lay, lh, |lh|), lay)
  {
    var e := Install(d, lay, lh, t);
    forall j | lay.start < j < lay.start + lay.size ensures e[j] == d[j] {
      InstallAt(d, lay, lh, t, j);
    }
    forall k | 0 <= k < |d| && !InLog(lay, k)
      ensures Install(e, lay, lh, |lh|)[k] == Install(d, lay, lh, |lh|)[k]
    {
      assert lh[..|lh|] == lh;
      InstallAt(d, lay, lh, t, k);
      InstallAt(d, lay, lh, |lh|, k);
      InstallAt(e, lay, lh, |lh|, k);
      InstalledFromLog(d, e, lay, lh, |lh|, k);
    }
  }

  /** A crash after any k writes of a recovery: the disk still has a sound header, and
      recovering it again ends with the home blocks of an undisturbed recovery. */
  lemma CrashInRecovery(d: Disk, lay: Layout, k: nat)
    requires HeadOk(d, lay)
    ensures HeadOk(RecoverDisk(d, lay, k), lay)
    ensures SameHome(Recovered(RecoverDisk(d, lay, k), lay), Recovered(d, lay), lay)
  {
    var lh := Header(d, lay);
    if k <= |lh| {
      InstallKeepsHeader(d, lay, k);
      Reinstall(d, lay, lh, k);
    } else {
      InstallKeepsHeader(d, lay, |lh|);
      HeaderWritten(Install(d, lay, lh, |lh|), lay, []);
    }
  }

  /** Once every log data block holds the cached contents, installing them updates the home blocks. */
  lemma {:induction false} InstalledFromMemory(c: Disk, lay: Layout, lh: seq<nat>, mem: Disk, t: nat, k: nat)
    requires Loggable(c, lay, lh) && |mem| == |c| && t <= |lh| && k < |c|
    requires forall i :: 0 <= i < t ==> c[lay.start + 1 + i] == mem[lh[i]]
    ensures Installed(c, lay, lh, t, k) == if k in lh[..t] then mem[k] else c[k]
  {
    if t > 0 {
      assert lh[..t] == lh[..t-1] + [lh[t-1]];
      assert c[lay.start + 1 + (t - 1)] == mem[lh[t-1]];
      InstalledFromMemory(c, lay, lh, mem, t - 1, k);
    }
  }

  /** The disk right after the commit header write already determines the new home blocks. */
  lemma CommitPoint(d: Disk, lay: Layout, lh: seq<nat>, mem: Disk)
    requires Loggable(d, lay, lh) && |mem| == |d|
    ensures var c := PutHeader(LogCopy(d, lay, lh, mem, |lh|), lay, lh);
            && HeadOk(c, lay) && Header(c, lay) == lh && Updated(d, lh, mem, Recovered(c, lay), lay)
  {
    var e := LogCopy(d, lay, lh, mem, |lh|);
    Copied(d, lay, lh, mem);
    HeaderWritten(e, lay, lh);
    RecoveredFromMemory(PutHeader(e, lay, lh), lay, lh, mem);
  }

  lemma Copied(d: Disk, lay: Layout, lh: seq<nat>, mem: Disk)
    requires Loggable(d, lay, lh) && |mem| == |d|
    ensures SameHome(LogCopy(d, lay, lh, mem, |lh|), d, lay)
    ensures forall i :: 0 <= i < |lh| ==> LogCopy(d, lay, lh, mem, |lh|)[lay.start + 1 + i] == mem[lh[i]]
  {
    forall k | 0 <= k < |d| && !InLog(lay, k) ensures LogCopy(d, lay, lh, mem, |lh|)[k] == d[k] {
      LogCopyFrame(d, lay, lh, mem, |lh|, k);
    }
    forall i | 0 <= i < |lh| ensures LogCopy(d, lay, lh, mem, |lh|)[lay.start + 1 + i] == mem[lh[i]] {
      LogCopyAt(d, lay, lh, mem, |lh|, i);
    }
  }

  lemma RecoveredFromMemory(c: Disk, lay: Layout, lh: seq<nat>, mem: Disk)
    requires HeadOk(c, lay) && Header(c, lay) == lh && |mem| == |c|
    requires forall i :: 0 <= i < |lh| ==> c[lay.start + 1 + i] == mem[lh[i]]
    ensures Updated(c, lh, mem, Recovered(c, lay), lay)
  {
    forall k | 0 <= k < |c| && !InLog(lay, k)
      ensures Recovered(c, lay)[k] == if k in lh then mem[k] else c[k]
    {
      InstallAt(c, lay, lh, |lh|, k);
      InstalledFromMemory(c, lay, lh, mem, |lh|, k);
      assert lh[..|lh|] == lh;
    }
  }

  lemma BeforeCommitPoint(d: Disk, lay: Layout, lh: seq<nat>, mem: Disk, k: nat)
    requires Loggable(d, lay, lh) && |mem| == |d| && HeadOk(d, lay) && Header(d, lay) == [] && k <= |lh|
    ensures HeadOk(LogCopy(d, lay, lh, mem, k), lay)
    ensures SameHome(Recovered(LogCopy(d, lay, lh, mem, k), lay), d, lay)
  {
    var e := LogCopy(d, lay, lh, mem, k);
    LogCopyFrame(d, lay, lh, mem, k, lay.start);
    forall j | 0 <= j < |d| && !InLog(lay, j) ensures e[j] == d[j] {
      LogCopyFrame(d, lay, lh, mem, k, j);
    }
    assert Header(e, lay) == [];
  }

  /** A crash after any k of the 2n + 2 writes of commit. Recovery leaves every home block
      old when the commit header write (number n + 1) had not reached the disk, and every
      home block new when it had. */
  lemma CrashInCommit(d: Disk, lay: Layout, lh: seq<nat>, mem: Disk, k: nat)
    requires Loggable(d, lay, lh) && |mem| == |d| && HeadOk(d, lay) && Header(d, lay) == []
    requires k <= 2 * |lh| + 2
    ensures var e := CommitDisk(d, lay, lh, mem, k);
            && HeadOk(e, lay)
            && (k <= |lh| ==> SameHome(Recovered(e, lay), d, lay))
            && (k > |lh| ==> Updated(d, lh, mem, Recovered(e, lay), lay))
  {
    if k <= |lh| {
      BeforeCommitPoint(d, lay, lh, mem, k);
    } else {
      AfterCommitPoint(d, lay, lh, mem, k);
    }
  }

  /** From the commit header on, commit performs the writes of a recovery. */
  lemma AfterCommitPoint(d: Disk, lay: Layout, lh: seq<nat>, mem: Disk, k: nat)
    requires Loggable(d, lay, lh) && |mem| == |d| && |lh| < k <= 2 * |lh| + 2
    ensures var e := CommitDisk(d, lay, lh, mem, k);
            HeadOk(e, lay) && Updated(d, lh, mem, Recovered(e, lay), lay)
  {
    CommitPoint(d, lay, lh, mem);
    var c, j := PutHeader(LogCopy(d, lay, lh, mem, |lh|), lay, lh), k - |lh| - 1;
    assert CommitDisk(d, lay, lh, mem, k) == Redo(c, lay, lh, j) == RecoverDisk(c, lay, j);
    StillUpdated(d, lh, mem, c, lay, j);
  }

  lemma StillUpdated(d: Disk, lh: seq<nat>, mem: Disk, c: Disk, lay: Layout, j: nat)
    requires |mem| == |d| && HeadOk(c, lay) && Updated(d, lh, mem, Recovered(c, lay), lay)
    ensures HeadOk(RecoverDisk(c, lay, j), lay)
    ensures Updated(d, lh, mem, Recovered(RecoverDisk(c, lay, j), lay), lay)
  {
    CrashInRecovery(c, lay, j);
  }

  /** A machine that keeps crashing: recovery i stops after crashes[i] block writes. */
  ghost function CrashAgain(d: Disk, lay: Layout, crashes: seq<nat>): (e: Disk)
    requires HeadOk(d, lay)
    ensures HeadOk(e, lay)
  {
    if crashes == [] then d else
      var e := CrashAgain(d, lay, crashes[..|crashes|-1]);
      CrashInRecovery(e, lay, crashes[|crashes|-1]);
      RecoverDisk(e, lay, crashes[|crashes|-1])
  }

  lemma {:induction false} AnyNumberOfCrashes(d: Disk, lay: Layout, crashes: seq<nat>)
    requires HeadOk(d, lay)
    ensures SameHome(Recovered(CrashAgain(d, lay, crashes), lay), Recovered(d, lay), lay)
  {
    if crashes != [] {
      var e := CrashAgain(d, lay, crashes[..|crashes|-1]);
      AnyNumberOfCrashes(d, lay, crashes[..|crashes|-1]);
      CrashInRecovery(e, lay, crashes[|crashes|-1]);
    }
  }

  /** Crash atomicity: stop commit after k writes, stop any number of recoveries after any
      of theirs; the first recovery that completes leaves the home blocks all old or all new,
      decided only by whether the commit header had been written. */
  lemma CrashAtomicity(d: Disk, lay: Layout, lh: seq<nat>, mem: Disk, k: nat, crashes: seq<nat>)
    requires Loggable(d, lay, lh) && |mem| == |d| && HeadOk(d, lay) && Header(d, lay) == []
    requires k <= 2 * |lh| + 2
    ensures HeadOk(CommitDisk(d, lay, lh, mem, k), lay)
    ensures var r := Recovered(CrashAgain(CommitDisk(d, lay, lh, mem, k), lay, crashes), lay);
            && HeadOk(r, lay) && Header(r, lay) == []
            && (k <= |lh| ==> SameHome(r, d, lay))
            && (k > |lh| ==> Updated(d, lh, mem, r, lay))
  {
    CrashInCommit(d, lay, lh, mem, k);
    AnyNumberOfCrashes(CommitDisk(d, lay, lh, mem, k), lay, crashes);
    RecoveryClears(CrashAgain(CommitDisk(d, lay, lh, mem, k), lay, crashes), lay);
  }

  lemma RecoveryClears(d: Disk, lay: Layout)
    requires HeadOk(d, lay)
    ensures HeadOk(Recovered(d, lay), lay) && Header(Recovered(d, lay), lay) == []
  {
    InstallKeepsHeader(d, lay, |Header(d, lay)|);
    HeaderWritten(Install(d, lay, Header(d, lay), |Header(d, lay)|), lay, []);
  }

  /** Blocks that were copied to the log and are installed from it do not change. */
  lemma InstallOwnCopy(c: Disk, lay: Layout, lh: seq<nat>, mem: Disk)
    requires Loggable(c, lay, lh) && SameHome(c, mem, lay)
    requires forall i :: 0 <= i < |lh| ==> c[lay.start + 1 + i] == mem[lh[i]]
    ensures SameHome(Install(c, lay, lh, |lh|), mem, lay)
  {
    forall k | 0 <= k < |c| && !InLog(lay, k) ensures Install(c, lay, lh, |lh|)[k] == mem[k] {
      InstallAt(c, lay, lh, |lh|, k);
      InstalledFromMemory(c, lay, lh, mem, |lh|, k);
    }
  }

  /** Recovering the disk e gives, block for block, either the old home blocks or the new ones. */
  ghost predicate Atomic(e: Disk, before: Disk, after: Disk, lay: Layout) {
    HeadOk(e, lay) && (SameHome(Recovered(e, lay), before, lay) || SameHome(Recovered(e, lay), after, lay))
  }

  /** When every block that differs from the disk is in the log, this holds of the disk after
      any number of the writes of commit. */
  lemma CommitIsAtomic(d: Disk, lay: Layout, lh: seq<nat>, mem: Disk, k: nat)
    requires Loggable(d, lay, lh) && |mem| == |d| && HeadOk(d, lay) && Header(d, lay) == [] && k <= 2 * |lh| + 2
    requires forall j :: 0 <= j < |d| && j !in lh ==> mem[j] == d[j]
    ensures Atomic(CommitDisk(d, lay, lh, mem, k), d, mem, lay)
  {
    CrashInCommit(d, lay, lh, mem, k);
  }
}
