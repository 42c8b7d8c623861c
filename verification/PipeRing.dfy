/** The pipe's ring buffer with its 32-bit counters is a queue of at most PIPESIZE bytes. */
module PipeRing {
  import opened Bytes
  import opened Common

  const PIPESIZE: nat := 512
  const TWO32: nat := 0x1_0000_0000

  /** nwrite - nread in unsigned arithmetic. */
  function Gap(nread: Word, nwrite: Word): (g: nat)
    ensures g < TWO32
  {
    (nwrite - nread) % TWO32
  }

  /** The test for a full pipe. */
  lemma FullTest(nread: Word, nwrite: Word)
    ensures nwrite == Wrap(nread + PIPESIZE) <==> Gap(nread, nwrite) == PIPESIZE
    ensures nread == nwrite <==> Gap(nread, nwrite) == 0
  {}

  /** Counting up: each counter moves the gap by one, across the wrap too. */
  lemma GapMoves(nread: Word, nwrite: Word)
    ensures Gap(nread, nwrite) + 1 < TWO32 ==> Gap(nread, Wrap(nwrite + 1)) == Gap(nread, nwrite) + 1
    ensures Gap(nread, nwrite) > 0 ==> Gap(Wrap(nread + 1), nwrite) == Gap(nread, nwrite) - 1
  {
    assert Gap(nread, nwrite) == if nwrite >= nread then nwrite - nread else nwrite - nread + TWO32;
    assert Wrap(nwrite + 1) == if nwrite + 1 == TWO32 then 0 else nwrite + 1;
    assert Wrap(nread + 1) == if nread + 1 == TWO32 then 0 else nread + 1;
  }

  /** PIPESIZE divides 2^32, so the slot of a counter survives its wrap. */
  lemma SlotWraps(x: nat, k: nat)
    ensures (Wrap(x) + k) % PIPESIZE == (x + k) % PIPESIZE
  {
    var q := x / TWO32;
    assert x == TWO32 * q + Wrap(x);
    assert x + k == 512 * (0x80_0000 * q) + (Wrap(x) + k);
    ModShift(Wrap(x) + k, 0x80_0000 * q);
  }

  lemma ModShift(a: nat, q: nat)
    ensures (512 * q + a) % 512 == a % 512
  {}

  /** Where the next byte goes. */
  lemma WriteSlot(nread: Word, nwrite: Word)
    ensures nwrite % PIPESIZE == (nread + Gap(nread, nwrite)) % PIPESIZE
  {
    var g := Gap(nread, nwrite);
    assert Wrap(nread + g) == nwrite;
    SlotWraps(nread + g, 0);
  }

  lemma SlotsDiffer(a: nat, k: nat, g: nat)
    requires k < g < PIPESIZE
    ensures (a + k) % PIPESIZE != (a + g) % PIPESIZE
  {
    var x, y := a + k, a + g;
    assert y - x == 512 * (y / 512 - x / 512) + (y % 512 - x % 512);
  }

  /** The bytes between the counters, oldest first. */
  function Queue(data: seq<Byte>, nread: Word, nwrite: Word): (s: seq<Byte>)
    requires |data| == PIPESIZE
    ensures |s| == Gap(nread, nwrite)
  {
    seq(Gap(nread, nwrite), k requires 0 <= k => data[(nread + k) % PIPESIZE])
  }

  lemma PutQueue(data: seq<Byte>, nread: Word, nwrite: Word, b: Byte)
    requires |data| == PIPESIZE && Gap(nread, nwrite) < PIPESIZE
    ensures Queue(data[nwrite % PIPESIZE := b], nread, Wrap(nwrite + 1)) == Queue(data, nread, nwrite) + [b]
  {
    var g := Gap(nread, nwrite);
    WriteSlot(nread, nwrite);
    GapMoves(nread, nwrite);
    var q, r := Queue(data[nwrite % PIPESIZE := b], nread, Wrap(nwrite + 1)), Queue(data, nread, nwrite) + [b];
    forall k | 0 <= k < g + 1 ensures q[k] == r[k] {
      if k < g { SlotsDiffer(nread, k, g); }
    }
  }

  lemma GetQueue(data: seq<Byte>, nread: Word, nwrite: Word)
    requires |data| == PIPESIZE && Gap(nread, nwrite) > 0
    ensures Queue(data, nread, nwrite) == [data[nread % PIPESIZE]] + Queue(data, Wrap(nread + 1), nwrite)
  {
    GapMoves(nread, nwrite);
    var q, r := Queue(data, nread, nwrite), Queue(data, Wrap(nread + 1), nwrite);
    forall k | 0 <= k < |r| ensures r[k] == q[k + 1] { SlotWraps(nread + 1, k); }
  }

  class Ring {
    const data: array<Byte>
    var nread: Word
    var nwrite: Word

    ghost predicate Valid()
      reads this, data
    {
      data.Length == PIPESIZE && Gap(nread, nwrite) <= PIPESIZE
    }

    ghost function Contents(): (s: seq<Byte>)
      requires Valid()
      reads this, data
      ensures |s| == Gap(nread, nwrite)
    {
      Queue(data[..], nread, nwrite)
    }

    constructor ()
      ensures Valid() && Contents() == [] && fresh(data)
    {
      data := new Byte[PIPESIZE](_ => 0);
      nread, nwrite := 0, 0;
    }

    /** data[nwrite++ % PIPESIZE] = b */
    method Put(b: Byte)
      requires Valid() && |Contents()| < PIPESIZE
      modifies `nwrite, data
      ensures Valid() && Contents() == old(Contents()) + [b]
    {
      PutQueue(data[..], nread, nwrite, b);
      GapMoves(nread, nwrite);
      ghost var was := data[..];
      data[nwrite % PIPESIZE] := b;
      assert data[..] == was[nwrite % PIPESIZE := b];
      nwrite := Wrap(nwrite + 1);
    }

    /** data[nread++ % PIPESIZE] */
    method Get() returns (b: Byte)
      requires Valid() && Contents() != []
      modifies `nread
      ensures Valid() && old(Contents()) == [b] + Contents()
    {
      GetQueue(data[..], nread, nwrite);
      GapMoves(nread, nwrite);
      b := data[nread % PIPESIZE];
      nread := Wrap(nread + 1);
    }

    /** pipewrite from byte i until the pipe is full or all is stored. */
    method Fill(addr: seq<Byte>, i: nat) returns (j: nat)
      requires Valid() && i <= |addr|
      modifies `nwrite, data
      ensures Valid() && j == i + Room(old(Contents()), |addr| - i)
      ensures Contents() == old(Contents()) + addr[i..j]
    {
      j := i;
      ghost var was := Contents();
      while j < |addr| && nwrite != Wrap(nread + PIPESIZE)
        invariant Valid() && i <= j <= |addr| && Contents() == was + addr[i..j]
      {
        FullTest(nread, nwrite);
        Put(addr[j]);
        assert addr[i..j + 1] == addr[i..j] + [addr[j]];
        j := j + 1;
      }
      FullTest(nread, nwrite);
    }

    /** piperead's copy loop. */
    method Drain(n: nat) returns (out: seq<Byte>)
      requires Valid()
      modifies `nread
      ensures Valid() && |out| == Min(n, |old(Contents())|) && old(Contents()) == out + Contents()
    {
      out := [];
      ghost var was := Contents();
      while |out| < n
        invariant Valid() && |out| <= n && was == out + Contents()
        decreases n - |out|
      {
        FullTest(nread, nwrite);
        if nread == nwrite { break; }
        var b := Get();
        out := out + [b];
      }
    }
  }

  /** How many of n bytes fit. */
  function Room(buf: seq<Byte>, n: nat): nat
    requires |buf| <= PIPESIZE
  {
    Min(n, PIPESIZE - |buf|)
  }
}
