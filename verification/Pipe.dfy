/** kernel/pipe.c: a ring of PIPESIZE bytes with two 32-bit counters that wrap around. */
module Pipe {
  import opened Wrappers
  import opened Blocks

  const PIPESIZE := 512

  datatype Ring = Ring(data: seq<byte>, nread: nat, nwrite: nat)

  /** After the bytes `stream` were written and the first `taken` of them read. */
  ghost predicate Carries(r: Ring, stream: seq<byte>, taken: nat) {
    && |r.data| == PIPESIZE && taken <= |stream| <= taken + PIPESIZE
    && r.nread == taken % 0x1_0000_0000 && r.nwrite == |stream| % 0x1_0000_0000
    && forall k :: taken <= k < |stream| ==> r.data[Slot(k)] == stream[k]
  }

  function Slot(k: nat): (i: nat)
    ensures i < PIPESIZE
  {
    k % 512
  }

  /** The ring is full, as the 32-bit counters tell. */
  predicate Full(r: Ring) {
    r.nwrite == (r.nread + PIPESIZE) % 0x1_0000_0000
  }

  predicate Empty(r: Ring) {
    r.nread == r.nwrite
  }

  /** The writer stores a byte and counts it. */
  function Put(r: Ring, b: byte): Ring
    requires |r.data| == PIPESIZE
  {
    Ring(r.data[r.nwrite % 512 := b], r.nread, (r.nwrite + 1) % 0x1_0000_0000)
  }

  /** The reader takes the next byte and counts it. */
  function Head(r: Ring): byte
    requires |r.data| == PIPESIZE
  {
    r.data[r.nread % 512]
  }

  function Drop(r: Ring): Ring {
    Ring(r.data, (r.nread + 1) % 0x1_0000_0000, r.nwrite)
  }

  // ---------- the counters ----------

  lemma Wrap(k: nat)
    ensures k % 0x1_0000_0000 % 512 == k % 512 && (k % 0x1_0000_0000 + 1) % 0x1_0000_0000 == (k + 1) % 0x1_0000_0000
  {
    var q, r := k / 0x1_0000_0000, k % 0x1_0000_0000;
    assert k == 512 * (q * 0x80_0000) + r;
    Multiple(q * 0x80_0000, r);
  }

  lemma Multiple(a: nat, r: nat)
    ensures (512 * a + r) % 512 == r % 512
  {
  }

  /** Counters less than 2^32 apart are equal modulo 2^32 only if they are equal. */
  lemma Distance(k: nat, d: nat)
    requires d <= 512
    ensures k % 0x1_0000_0000 == (k + d) % 0x1_0000_0000 <==> d == 0
    ensures (k % 0x1_0000_0000 + 512) % 0x1_0000_0000 == (k + d) % 0x1_0000_0000 <==> d == 512
  {
  }

  /** The wrapping counters tell full and empty right, for ever. */
  lemma GuardsRight(r: Ring, stream: seq<byte>, taken: nat)
    requires Carries(r, stream, taken)
    ensures Full(r) <==> |stream| == taken + PIPESIZE
    ensures Empty(r) <==> |stream| == taken
  {
    Distance(taken, |stream| - taken);
  }

  lemma SlotsDiffer(k: nat, n: nat)
    requires k < n < k + 512
    ensures Slot(k) != Slot(n)
  {
  }

  lemma PutCarries(r: Ring, stream: seq<byte>, taken: nat, b: byte)
    requires Carries(r, stream, taken) && !Full(r)
    ensures Carries(Put(r, b), stream + [b], taken)
  {
    GuardsRight(r, stream, taken);
    Wrap(|stream|);
    var t := Put(r, b);
    forall k | taken <= k < |stream + [b]| ensures t.data[Slot(k)] == (stream + [b])[k] {
      if k < |stream| {
        SlotsDiffer(k, |stream|);
      }
    }
  }

  lemma DropCarries(r: Ring, stream: seq<byte>, taken: nat)
    requires Carries(r, stream, taken) && !Empty(r)
    ensures taken < |stream| && Head(r) == stream[taken] && Carries(Drop(r), stream, taken + 1)
  {
    GuardsRight(r, stream, taken);
    Wrap(taken);
    assert r.data[Slot(taken)] == stream[taken];
  }

  // ---------- runs ----------

  /** Readers and writers, in any order, one byte at a time. */
  datatype Event = Write(b: byte) | Read

  predicate Legal(r: Ring, es: seq<Event>)
    requires |r.data| == PIPESIZE
    decreases |es|
  {
    es == [] || (if es[0].Write? then !Full(r) && Legal(Put(r, es[0].b), es[1..])
                 else !Empty(r) && Legal(Drop(r), es[1..]))
  }

  function Written(es: seq<Event>): seq<byte> {
    if es == [] then [] else (if es[0].Write? then [es[0].b] else []) + Written(es[1..])
  }

  /** The bytes that the readers got. */
  function Consumed(r: Ring, es: seq<Event>): seq<byte>
    requires |r.data| == PIPESIZE && Legal(r, es)
    decreases |es|
  {
    if es == [] then []
    else if es[0].Write? then Consumed(Put(r, es[0].b), es[1..])
    else [Head(r)] + Consumed(Drop(r), es[1..])
  }

  lemma {:induction false} FifoFrom(r: Ring, stream: seq<byte>, taken: nat, es: seq<Event>, all: seq<byte>)
    requires Carries(r, stream, taken) && Legal(r, es) && all == stream + Written(es)
    ensures taken + |Consumed(r, es)| <= |all| && Consumed(r, es) == all[taken..taken + |Consumed(r, es)|]
    decreases |es|
  {
    if es == [] {
    } else if es[0].Write? {
      var b := es[0].b;
      PutCarries(r, stream, taken, b);
      assert stream + [b] + Written(es[1..]) == stream + ([b] + Written(es[1..]));
      FifoFrom(Put(r, b), stream + [b], taken, es[1..], all);
    } else {
      DropCarries(r, stream, taken);
      assert [] + Written(es[1..]) == Written(es[1..]);
      FifoFrom(Drop(r), stream, taken + 1, es[1..], all);
      assert all[taken] == stream[taken];
    }
  }

  /** In every interleaving, what was read is a prefix of what was written, however often the counters
      have wrapped. */
  lemma Fifo(data: seq<byte>, es: seq<Event>)
    requires |data| == PIPESIZE && Legal(Ring(data, 0, 0), es)
    ensures Consumed(Ring(data, 0, 0), es) <= Written(es)
  {
    assert Written(es) == [] + Written(es);
    FifoFrom(Ring(data, 0, 0), [], 0, es, Written(es));
  }

  // ---------- pipewrite and piperead ----------

  /** How a call ends the part that runs under the lock: it returns, fails, or sleeps to go on later. */
  datatype Outcome = Returns | Fails | Sleeps

  class PipeBuf {
    var ring: Ring
    var readopen: bool
    var writeopen: bool
    ghost var stream: seq<byte>
    ghost var taken: nat

    ghost predicate Valid()
      reads this
    {
      Carries(ring, stream, taken)
    }

    /** pipealloc */
    constructor (data: seq<byte>)
      requires |data| == PIPESIZE
      ensures Valid() && stream == [] && taken == 0 && readopen && writeopen
    {
      ring := Ring(data, 0, 0);
      readopen, writeopen := true, true;
      stream, taken := [], 0;
    }

    /** pipewrite from byte `from` on, until it returns or sleeps. src[i] is what copyin gets for byte i;
        killed is the byte at which the process notices that it was killed. */
    method Write(src: seq<Option<byte>>, from: nat, killed: nat) returns (r: Outcome, i: nat)
      requires Valid() && from <= |src|
      modifies `ring, `stream
      ensures Valid() && from <= i <= |src|
      ensures forall j :: from <= j < i ==> src[j].Some?
      ensures stream == old(stream) + Values(src, from, i)
      ensures from < i ==> readopen && i <= killed
      ensures r == Fails <==> i < |src| && (!readopen || killed <= i)
      ensures r == Sleeps <==> i < |src| && readopen && i < killed && |stream| == taken + PIPESIZE
      ensures r == Returns && i < |src| ==> src[i].None?
    {
      i := from;
      while i < |src|
        invariant from <= i <= |src| && Valid() && (forall j :: from <= j < i ==> src[j].Some?)
        invariant stream == old(stream) + Values(src, from, i)
        invariant from < i ==> readopen && i <= killed
      {
        if !readopen || killed <= i {
          return Fails, i;
        }
        GuardsRight(ring, stream, taken);
        if Full(ring) {
          return Sleeps, i;
        }
        if src[i].None? {
          break;
        }
        PutCarries(ring, stream, taken, src[i].value);
        ring := Put(ring, src[i].value);
        stream := stream + [src[i].value];
        i := i + 1;
      }
      return Returns, i;
    }

    /** piperead, until it returns or sleeps; copyout fails for byte `bad` and those behind it. A byte whose
        copyout fails is gone all the same. */
    method Read(n: nat, killed: bool, bad: nat) returns (r: Outcome, out: seq<byte>)
      requires Valid()
      modifies `ring, `taken
      ensures Valid() && old(taken) <= taken && old(taken) + |out| <= |stream|
      ensures out == stream[old(taken)..old(taken) + |out|] && |out| <= n && |out| <= bad
      ensures r == Sleeps || r == Fails ==>
                out == [] && taken == old(taken) == |stream| && writeopen && (r == Fails <==> killed)
      ensures r == Returns ==>
                (|stream| > old(taken) || !writeopen) &&
                taken == old(taken) + |out| + (if |out| == bad < n && |out| < |stream| - old(taken) then 1 else 0)
      ensures r == Returns ==> |out| == n || |out| == bad || taken == |stream|
    {
      out := [];
      GuardsRight(ring, stream, taken);
      if Empty(ring) && writeopen {
        return if killed then Fails else Sleeps, [];
      }
      r := Returns;
      while |out| < n
        invariant Valid() && |out| <= n && |out| <= bad && taken == old(taken) + |out|
        invariant out == stream[old(taken)..taken]
        decreases n - |out|
      {
        GuardsRight(ring, stream, taken);
        if Empty(ring) {
          break;
        }
        DropCarries(ring, stream, taken);
        var ch := Head(ring);
        ring := Drop(ring);
        taken := taken + 1;
        if |out| == bad {
          break;
        }
        out := out + [ch];
      }
    }
  }

  /** The bytes from..to of what copyin gets. */
  function Values(src: seq<Option<byte>>, from: nat, to: nat): seq<byte>
    requires from <= to <= |src| && forall j :: from <= j < to ==> src[j].Some?
  {
    if from == to then [] else Values(src, from, to - 1) + [src[to-1].value]
  }
}
