/** commit of kernel/log.c as a sequence of 2n + 2 block writes: n to the log, the header, n to the blocks they
    are logged for, and the empty header. */
module CommitSteps {
  import opened Blocks
  import opened Wrappers
  import opened LogSpec

  /** Write j is that of a header. */
  predicate WritesHead(lh: seq<nat>, j: nat) {
    j == |lh| || j == 2 * |lh| + 1
  }

  /** Write j installs a block. */
  predicate Installs(lh: seq<nat>, j: nat) {
    |lh| < j < 2 * |lh| + 1
  }

  /** Which of the logged blocks the copy before write j is about. */
  function Entry(lh: seq<nat>, j: nat): nat
    requires j < 2 * |lh| + 2 && !WritesHead(lh, j)
    ensures Entry(lh, j) < |lh|
  {
    if j < |lh| then j else j - |lh| - 1
  }

  /** The block that write j goes to, */
  function Target(lay: Layout, lh: seq<nat>, j: nat): nat
    requires j < 2 * |lh| + 2
  {
    if WritesHead(lh, j) then lay.start else if j < |lh| then lay.start + j + 1 else lh[Entry(lh, j)]
  }

  /** and the one that it is copied from. */
  function Source(lay: Layout, lh: seq<nat>, j: nat): Option<nat>
    requires j < 2 * |lh| + 2
  {
    if WritesHead(lh, j) then None else if j < |lh| then Some(lh[j]) else Some(lay.start + Entry(lh, j) + 1)
  }

  /** The list in the header that write j stores. */
  function HeadList(lh: seq<nat>, j: nat): seq<nat> {
    if j == |lh| then lh else []
  }

  lemma TargetOnDisk(d: Disk, lay: Layout, lh: seq<nat>, j: nat)
    requires Loggable(d, lay, lh) && j < 2 * |lh| + 2
    ensures Target(lay, lh, j) < |d| && (Installs(lh, j) <==> !InLog(lay, Target(lay, lh, j)))
  {
  }

  ghost predicate Committable(d: Disk, lay: Layout, lh: seq<nat>, mem: Disk) {
    Loggable(d, lay, lh) && |mem| == |d|
  }

  /** What write j stores, on the disk e: a header, or a logged block as the cache had it. */
  ghost function Payload(e: Disk, lay: Layout, lh: seq<nat>, mem: Disk, j: nat): Block {
    if !Committable(e, lay, lh, mem) || j >= 2 * |lh| + 2 then ZeroBlock()
    else if WritesHead(lh, j) then EncodeHead(e[lay.start], HeadList(lh, j))
    else mem[lh[Entry(lh, j)]]
  }

  /** The disk after j writes. */
  ghost function After(d: Disk, lay: Layout, lh: seq<nat>, mem: Disk, j: nat): (e: Disk)
    ensures |e| == |d|
  {
    if j == 0 || j > 2 * |lh| + 2 || !Committable(d, lay, lh, mem) then d else
      var e := After(d, lay, lh, mem, j - 1);
      TargetOnDisk(d, lay, lh, j - 1);
      e[Target(lay, lh, j - 1) := Payload(e, lay, lh, mem, j - 1)]
  }

  /** From the header on, the log has the logged blocks. */
  lemma LogHas(d: Disk, lay: Layout, lh: seq<nat>, mem: Disk, j: nat, i: nat)
    requires Loggable(d, lay, lh) && |mem| == |d| && |lh| < j <= 2 * |lh| + 1 && i < |lh|
    ensures CommitDisk(d, lay, lh, mem, j)[lay.start + i + 1] == mem[lh[i]]
  {
    var c := PutHeader(LogCopy(d, lay, lh, mem, |lh|), lay, lh);
    LogCopyAt(d, lay, lh, mem, |lh|, i);
    InstallAt(c, lay, lh, j - |lh| - 1, lay.start + i + 1);
  }

  /** Write j of commit changes its target, to its payload. */
  lemma NextDisk(d: Disk, lay: Layout, lh: seq<nat>, mem: Disk, j: nat, e: Disk)
    requires Committable(d, lay, lh, mem) && j < 2 * |lh| + 2 && e == CommitDisk(d, lay, lh, mem, j)
    requires Committable(e, lay, lh, mem) && Target(lay, lh, j) < |e|
    ensures CommitDisk(d, lay, lh, mem, j + 1) == e[Target(lay, lh, j) := Payload(e, lay, lh, mem, j)]
  {
    if Installs(lh, j) {
      LogHas(d, lay, lh, mem, j, Entry(lh, j));
    }
  }

  /** It is the disk after j writes of write_log, write_head, install_trans and write_head. */
  lemma {:induction false} AfterIsCommit(d: Disk, lay: Layout, lh: seq<nat>, mem: Disk, j: nat)
    requires Committable(d, lay, lh, mem) && j <= 2 * |lh| + 2
    ensures After(d, lay, lh, mem, j) == CommitDisk(d, lay, lh, mem, j)
  {
    if j > 0 {
      AfterIsCommit(d, lay, lh, mem, j - 1);
      TargetOnDisk(d, lay, lh, j - 1);
      NextDisk(d, lay, lh, mem, j - 1, After(d, lay, lh, mem, j - 1));
    }
  }

  lemma AfterHas(d: Disk, lay: Layout, lh: seq<nat>, mem: Disk, j: nat, i: nat)
    requires Loggable(d, lay, lh) && |mem| == |d| && |lh| < j <= 2 * |lh| + 1 && i < |lh|
    ensures After(d, lay, lh, mem, j)[lay.start + i + 1] == mem[lh[i]]
  {
    AfterIsCommit(d, lay, lh, mem, j);
    LogHas(d, lay, lh, mem, j, i);
  }

  /** What recovery gives once the header is written: the logged blocks as the cache had them. */
  ghost function Merged(d: Disk, lh: seq<nat>, mem: Disk): Disk
    requires |mem| == |d|
  {
    seq(|d|, k requires 0 <= k < |d| => if k in lh then mem[k] else d[k])
  }

  lemma AfterIsAtomic(d: Disk, lay: Layout, lh: seq<nat>, mem: Disk, j: nat)
    requires Loggable(d, lay, lh) && |mem| == |d| && HeadOk(d, lay) && Header(d, lay) == [] && j <= 2 * |lh| + 2
    ensures Atomic(After(d, lay, lh, mem, j), d, Merged(d, lh, mem), lay)
  {
    AfterIsCommit(d, lay, lh, mem, j);
    CrashInCommit(d, lay, lh, mem, j);
  }

  lemma AfterAll(d: Disk, lay: Layout, lh: seq<nat>, mem: Disk)
    requires Loggable(d, lay, lh) && |mem| == |d|
    ensures var e := After(d, lay, lh, mem, 2 * |lh| + 2);
            HeadOk(e, lay) && Header(e, lay) == [] && SameHome(e, Merged(d, lh, mem), lay)
  {
    var e := After(d, lay, lh, mem, 2 * |lh| + 2);
    AfterIsCommit(d, lay, lh, mem, 2 * |lh| + 2);
    LastHead(d, lay, lh, mem, e);
    LastMerged(d, lay, lh, mem, e);
  }

  lemma LastMerged(d: Disk, lay: Layout, lh: seq<nat>, mem: Disk, e: Disk)
    requires Loggable(d, lay, lh) && |mem| == |d| && e == CommitDisk(d, lay, lh, mem, 2 * |lh| + 2)
    ensures HeadOk(e, lay) && SameHome(Recovered(e, lay), Merged(d, lh, mem), lay)
  {
    AfterCommitPoint(d, lay, lh, mem, 2 * |lh| + 2);
  }

  lemma LastHead(d: Disk, lay: Layout, lh: seq<nat>, mem: Disk, e: Disk)
    requires Loggable(d, lay, lh) && |mem| == |d| && e == CommitDisk(d, lay, lh, mem, 2 * |lh| + 2)
    ensures HeadOk(e, lay) && Header(e, lay) == [] && SameHome(Recovered(e, lay), e, lay)
  {
    var c := PutHeader(LogCopy(d, lay, lh, mem, |lh|), lay, lh);
    HeaderWritten(Install(c, lay, lh, |lh|), lay, []);
  }

  /** The first n of the blocks of lh are the same on both. */
  ghost predicate SameOn(d: Disk, e: Disk, lh: seq<nat>, n: nat) {
    n == 0 || (n <= |lh| && lh[n - 1] < |d| == |e| && d[lh[n - 1]] == e[lh[n - 1]] && SameOn(d, e, lh, n - 1))
  }

  lemma {:induction false} SameOnIff(d: Disk, e: Disk, lh: seq<nat>, n: nat)
    requires n <= |lh| && |d| == |e|
    ensures SameOn(d, e, lh, n) <==> forall i :: 0 <= i < n ==> lh[i] < |d| && d[lh[i]] == e[lh[i]]
  {
    if n > 0 {
      SameOnIff(d, e, lh, n - 1);
    }
  }
}
