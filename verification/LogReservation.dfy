/** The space accounting of begin_op, log_write and end_op (kernel/log.c), over every
    interleaving of file-system operations. */
module LogReservation {
  import opened LogSpec
  import opened Wrappers

  /** The in-memory header and, for each outstanding operation, the blocks it has logged. */
  datatype State = State(blocks: seq<nat>, ops: seq<set<nat>>)

  const EMPTY := State([], [])

  datatype Step = Begin | LogWrite(op: nat, b: nat) | End(op: nat)

  /** begin_op goes ahead only when a full operation still fits; otherwise it sleeps. */
  predicate Granted(s: State) {
    |s.blocks| + (|s.ops| + 1) * MAXOPBLOCKS <= LOGSIZE
  }

  /** The "too big a transaction" panic of log_write. */
  predicate TooBig(s: State, size: nat) {
    |s.blocks| >= LOGSIZE || |s.blocks| >= size - 1
  }

  function AfterBegin(s: State): State {
    State(s.blocks, s.ops + [{}])
  }

  /** log_write, absorbing a block that is already logged. */
  function AfterLogWrite(s: State, op: nat, b: nat): State
    requires op < |s.ops|
  {
    State(if b in s.blocks then s.blocks else s.blocks + [b], s.ops[op := s.ops[op] + {b}])
  }

  /** end_op; the last one commits, which empties the log. */
  function AfterEnd(s: State, op: nat): State
    requires op < |s.ops|
  {
    var rest := s.ops[..op] + s.ops[op+1..];
    State(if rest == [] then [] else s.blocks, rest)
  }

  /** A client that logs at most cap distinct blocks in one operation may take this step. */
  predicate Allowed(s: State, step: Step, cap: nat) {
    match step
    case Begin => Granted(s)
    case LogWrite(op, b) => op < |s.ops| && |s.ops[op] + {b}| <= cap
    case End(op) => op < |s.ops|
  }

  function Next(s: State, step: Step, cap: nat): State
    requires Allowed(s, step, cap)
  {
    match step
    case Begin => AfterBegin(s)
    case LogWrite(op, b) => AfterLogWrite(s, op, b)
    case End(op) => AfterEnd(s, op)
  }

  /** The state after the steps, taken in order by such clients on a log of the given size;
      None when one of them is not allowed or panics. */
  function Reached(steps: seq<Step>, cap: nat, size: nat): Option<State> {
    if steps == [] then Some(EMPTY) else
      var last := steps[|steps|-1];
      match Reached(steps[..|steps|-1], cap, size)
      case None => None
      case Some(s) =>
        if !Allowed(s, last, cap) || (last.LogWrite? && TooBig(s, size)) then None else Some(Next(s, last, cap))
  }

  // ---------- unused reservations ----------

  ghost function Unused(ops: seq<set<nat>>, cap: nat): int {
    if ops == [] then 0 else Unused(ops[..|ops|-1], cap) + cap - |ops[|ops|-1]|
  }

  lemma {:induction false} UnusedUpdate(ops: seq<set<nat>>, cap: nat, k: nat, v: set<nat>)
    requires k < |ops|
    ensures Unused(ops[k := v], cap) == Unused(ops, cap) + |ops[k]| - |v|
  {
    var n := |ops| - 1;
    if k < n {
      UnusedUpdate(ops[..n], cap, k, v);
      assert ops[k := v][..n] == ops[..n][k := v];
    } else {
      assert ops[k := v][..n] == ops[..n];
    }
  }

  lemma {:induction false} UnusedRemove(ops: seq<set<nat>>, cap: nat, k: nat)
    requires k < |ops|
    ensures Unused(ops[..k] + ops[k+1..], cap) == Unused(ops, cap) - cap + |ops[k]|
  {
    var n, rest := |ops| - 1, ops[..k] + ops[k+1..];
    if k < n {
      UnusedRemove(ops[..n], cap, k);
      assert rest[..n-1] == ops[..n][..k] + ops[..n][k+1..];
    } else {
      assert rest == ops[..n];
    }
  }

  lemma {:induction false} UnusedNonNegative(ops: seq<set<nat>>, cap: nat, k: nat)
    requires k < |ops| && forall i :: 0 <= i < |ops| ==> |ops[i]| <= cap
    ensures 0 <= cap - |ops[k]| <= Unused(ops, cap)
  {
    var n := |ops| - 1;
    if k < n {
      UnusedNonNegative(ops[..n], cap, k);
    } else if n > 0 {
      UnusedNonNegative(ops[..n], cap, 0);
    }
  }

  /** Adding an empty operation reserves cap blocks more than |ops| * cap did. */
  lemma {:induction false} UnusedBound(ops: seq<set<nat>>, cap: nat)
    ensures Unused(ops, cap) <= |ops| * cap
  {
    if ops != [] {
      UnusedBound(ops[..|ops|-1], cap);
    }
  }

  // ---------- what every run keeps ----------

  /** No operation exceeds its cap, an idle log is empty, and what is logged plus what the
      outstanding operations may still log stays within bound. */
  ghost predicate Reserved(s: State, cap: nat, bound: int) {
    && (forall i :: 0 <= i < |s.ops| ==> |s.ops[i]| <= cap)
    && (s.ops == [] ==> s.blocks == [])
    && |s.blocks| + Unused(s.ops, cap) <= bound
  }

  lemma BeginKeeps(s: State, cap: nat, bound: int)
    requires Reserved(s, cap, bound) && Granted(s)
    requires (cap == MAXOPBLOCKS && bound == LOGSIZE) || (cap == MAXOPBLOCKS - 1 && bound == LOGSIZE - 2)
    ensures Reserved(AfterBegin(s), cap, bound)
  {
    UnusedBound(s.ops, cap);
    assert AfterBegin(s).ops[..|s.ops|] == s.ops;
  }

  lemma LogWriteKeeps(s: State, cap: nat, bound: int, op: nat, b: nat)
    requires Reserved(s, cap, bound) && op < |s.ops| && |s.ops[op] + {b}| <= cap
    requires forall i :: 0 <= i < |s.ops| ==> s.ops[i] <= set x | x in s.blocks
    ensures Reserved(AfterLogWrite(s, op, b), cap, bound)
  {
    UnusedUpdate(s.ops, cap, op, s.ops[op] + {b});
    if b in s.ops[op] {
      assert s.ops[op] + {b} == s.ops[op];
    }
  }

  lemma EndKeeps(s: State, cap: nat, bound: int, op: nat)
    requires Reserved(s, cap, bound) && op < |s.ops| && bound >= 0
    ensures Reserved(AfterEnd(s, op), cap, bound)
  {
    UnusedRemove(s.ops, cap, op);
  }

  /** In every run of operations that log at most MAXOPBLOCKS (or one fewer) distinct blocks
      each, logged blocks plus unused reservations stay within LOGSIZE (or two fewer). */
  lemma {:induction false} ReservationHolds(steps: seq<Step>, cap: nat, size: nat, bound: int)
    requires Reached(steps, cap, size).Some?
    requires (cap == MAXOPBLOCKS && bound == LOGSIZE) || (cap == MAXOPBLOCKS - 1 && bound == LOGSIZE - 2)
    ensures var s := Reached(steps, cap, size).value;
            Reserved(s, cap, bound) && forall i :: 0 <= i < |s.ops| ==> s.ops[i] <= set x | x in s.blocks
  {
    if steps != [] {
      var before, last := steps[..|steps|-1], steps[|steps|-1];
      ReservationHolds(before, cap, size, bound);
      var s := Reached(before, cap, size).value;
      match last
      case Begin => BeginKeeps(s, cap, bound);
      case LogWrite(op, b) => LogWriteKeeps(s, cap, bound, op, b);
      case End(op) => EndKeeps(s, cap, bound, op);
    }
  }

  /** After any run of clients with this cap, a log_write they may make does not panic. */
  ghost predicate NeverTooBig(cap: nat, size: nat) {
    forall steps: seq<Step>, op: nat, b: nat ::
      Reached(steps, cap, size).Some? && Allowed(Reached(steps, cap, size).value, LogWrite(op, b), cap)
      ==> !TooBig(Reached(steps, cap, size).value, size)
  }

  lemma {:induction false} LooserCap(steps: seq<Step>, cap: nat, cap': nat, size: nat)
    requires cap <= cap' && Reached(steps, cap, size).Some?
    ensures Reached(steps, cap', size) == Reached(steps, cap, size)
  {
    if steps != [] {
      LooserCap(steps[..|steps|-1], cap, cap', size);
    }
  }

  lemma NoPanic(steps: seq<Step>, cap: nat, op: nat, b: nat)
    requires cap < MAXOPBLOCKS && Reached(steps, cap, LOGSIZE).Some?
    requires Allowed(Reached(steps, cap, LOGSIZE).value, LogWrite(op, b), cap)
    ensures !TooBig(Reached(steps, cap, LOGSIZE).value, LOGSIZE)
  {
    LooserCap(steps, cap, MAXOPBLOCKS - 1, LOGSIZE);
    ReservationHolds(steps, MAXOPBLOCKS - 1, LOGSIZE, LOGSIZE - 2);
    UnusedNonNegative(Reached(steps, cap, LOGSIZE).value.ops, MAXOPBLOCKS - 1, op);
  }

  // ---------- three operations of ten blocks do not fit in 29 data blocks ----------

  function Witness(j: nat): seq<Step> {
    if j == 0 then [Begin, Begin, Begin] else Witness(j - 1) + [LogWrite((j - 1) / 10, j - 1)]
  }

  /** The blocks of 0..j that operation k logs: 10k up to 10k + 9. */
  function Decade(j: nat, k: nat): (s: set<nat>)
    ensures forall i :: i in s ==> i < j
    ensures |s| <= 10 && (j < 10 * (k + 1) ==> |s| <= j - 10 * k || |s| == 0)
  {
    if j <= 10 * k then {} else if j <= 10 * (k + 1) then Decade(j - 1, k) + {j - 1} else Decade(j - 1, k)
  }

  function WitnessState(j: nat): State {
    State(seq(j, i => i), [Decade(j, 0), Decade(j, 1), Decade(j, 2)])
  }

  lemma Extend(steps: seq<Step>, step: Step, cap: nat, size: nat, s: State)
    requires Reached(steps, cap, size) == Some(s) && Allowed(s, step, cap) && (step.LogWrite? ==> !TooBig(s, size))
    ensures Reached(steps + [step], cap, size) == Some(Next(s, step, cap))
  {
    assert (steps + [step])[..|steps|] == steps;
  }

  lemma WitnessStarts(cap: nat)
    ensures Reached(Witness(0), cap, LOGSIZE) == Some(WitnessState(0))
  {
    var s1 := AfterBegin(EMPTY);
    var s2 := AfterBegin(s1);
    Extend([], Begin, cap, LOGSIZE, EMPTY);
    Extend([] + [Begin], Begin, cap, LOGSIZE, s1);
    Extend([] + [Begin] + [Begin], Begin, cap, LOGSIZE, s2);
    assert [] + [Begin] + [Begin] + [Begin] == Witness(0);
    assert AfterBegin(s2).ops == [{}, {}, {}] == WitnessState(0).ops;
    assert AfterBegin(s2).blocks == WitnessState(0).blocks;
  }

  lemma WitnessStep(j: nat, k: nat)
    requires k < 3 && 10 * k <= j < 10 * (k + 1)
    ensures AfterLogWrite(WitnessState(j), k, j) == WitnessState(j + 1)
    ensures |WitnessState(j).ops[k] + {j}| <= MAXOPBLOCKS
  {
    var s, t := WitnessState(j), WitnessState(j + 1);
    assert k == 0 || k == 1 || k == 2;
    assert s.ops[k] == Decade(j, k);
    assert Decade(j + 1, k) == Decade(j, k) + {j};
    OtherDecade(j, k, 0);
    OtherDecade(j, k, 1);
    OtherDecade(j, k, 2);
    assert s.ops[k := Decade(j + 1, k)] == t.ops;
    assert j !in s.blocks && s.blocks + [j] == t.blocks;
  }

  lemma OtherDecade(j: nat, k: nat, i: nat)
    requires 10 * k <= j < 10 * (k + 1)
    ensures i != k ==> Decade(j + 1, i) == Decade(j, i)
  {
  }

  lemma {:induction false} WitnessRuns(j: nat, cap: nat)
    requires j <= 29 && cap >= MAXOPBLOCKS
    ensures Reached(Witness(j), cap, LOGSIZE) == Some(WitnessState(j))
  {
    if j == 0 {
      WitnessStarts(cap);
    } else {
      WitnessRuns(j - 1, cap);
      WitnessStep(j - 1, (j - 1) / 10);
      Extend(Witness(j - 1), LogWrite((j - 1) / 10, j - 1), cap, LOGSIZE, WitnessState(j - 1));
    }
  }

  lemma WitnessPanics(j: nat, cap: nat)
    requires j == 29 && cap >= MAXOPBLOCKS
    ensures Reached(Witness(j), cap, LOGSIZE).Some?
    ensures var s := Reached(Witness(j), cap, LOGSIZE).value; Allowed(s, LogWrite(2, j), cap) && TooBig(s, LOGSIZE)
  {
    WitnessRuns(j, cap);
    WitnessStep(j, 2);
  }

  /** With log.size = LOGSIZE the panic is unreachable exactly for operations that log at most
      MAXOPBLOCKS - 1 distinct blocks: the header takes one of the LOGSIZE blocks. */
  lemma PanicUnreachableIff(cap: nat)
    ensures NeverTooBig(cap, LOGSIZE) <==> cap < MAXOPBLOCKS
  {
    if cap < MAXOPBLOCKS {
      forall steps: seq<Step>, op: nat, b: nat
        | Reached(steps, cap, LOGSIZE).Some? && Allowed(Reached(steps, cap, LOGSIZE).value, LogWrite(op, b), cap)
        ensures !TooBig(Reached(steps, cap, LOGSIZE).value, LOGSIZE)
      {
        NoPanic(steps, cap, op, b);
      }
    } else {
      var j := 29;
      WitnessPanics(j, cap);
    }
  }
}
