/**
 Pipes (kernel/pipe.c).  Every method is one stretch of a system call under pi->lock,
 up to its end or to a sleep; readers and writers may alternate between such
 stretches in any way.  `accepted` and `consumed` are the bytes ever put in and ever
 taken out; Valid() ties them to the ring.
 */
module Pipe {

  const PIPESIZE: nat := 512
  const WRAP: nat := 0x1_0000_0000    // nread and nwrite are uint

  type Byte = nat

  /** How a stretch ends: return i, return -1, or asleep. */
  datatype Outcome = Done | Failed | Asleep

  /** The channels &pi->nread, where readers sleep, and &pi->nwrite, where writers sleep. */
  datatype Chan = Readers | Writers

  lemma {:induction false} FullTest(nin: nat, nout: nat)
    requires nout <= nin <= nout + PIPESIZE
    ensures nin % WRAP == (nout % WRAP + PIPESIZE) % WRAP <==> nin == nout + PIPESIZE
    ensures nin % WRAP == nout % WRAP <==> nin == nout
  {
    var d := nin - nout;
    assert (nout + d) % WRAP == (nout % WRAP + d) % WRAP;
  }

  /** The ring size divides 2^32: slots do not jump when a counter wraps. */
  lemma {:induction false} SlotOf(n: nat)
    ensures n % WRAP % PIPESIZE == n % PIPESIZE
  {
  }

  lemma {:induction false} NextIndex(n: nat)
    ensures (n % WRAP + 1) % WRAP == (n + 1) % WRAP
  {
  }

  lemma {:induction false} SlotsApart(a: nat, b: nat)
    requires a < b < a + PIPESIZE
    ensures a % PIPESIZE != b % PIPESIZE
  {
    var d := b - a;
    assert (a + d) % PIPESIZE == (a % PIPESIZE + d) % PIPESIZE;
  }

  class Pipe {
    const data: array<Byte>
    var nread: nat
    var nwrite: nat
    var readopen: bool
    var writeopen: bool
    var freed: bool
    ghost var accepted: seq<Byte>
    ghost var consumed: seq<Byte>

    ghost predicate Valid()
      reads this, data
    {
      && data.Length == PIPESIZE
      && nread == |consumed| % WRAP && nwrite == |accepted| % WRAP
      && |consumed| <= |accepted| <= |consumed| + PIPESIZE && accepted[..|consumed|] == consumed
      && (forall k :: |consumed| <= k < |accepted| ==> data[k % PIPESIZE] == accepted[k])
      && (freed <==> !readopen && !writeopen)
    }

    /** The bytes in the pipe, oldest first. */
    ghost function Buffered(): (s: seq<Byte>)
      requires Valid()
      reads this, data
      ensures |s| <= PIPESIZE && consumed + s == accepted
    {
      accepted[|consumed|..]
    }

    /** What those who sleep on a channel wait for. */
    ghost predicate Ready(ch: Chan)
      requires Valid()
      reads this, data
    {
      match ch
      case Readers => Buffered() != [] || !writeopen
      case Writers => |Buffered()| < PIPESIZE || !readopen
    }

    /** pipealloc's initialisation. */
    constructor ()
      ensures Valid() && accepted == [] && consumed == [] && readopen && writeopen && fresh(data)
    {
      data := new Byte[PIPESIZE];
      nread, nwrite, readopen, writeopen, freed := 0, 0, true, true, false;
      accepted, consumed := [], [];
    }

    /** pipeclose: the memory goes exactly when the second end is closed. */
    method Close(writable: bool) returns (woken: set<Chan>)
      requires Valid() && !freed && (if writable then writeopen else readopen)
      modifies this`readopen, this`writeopen, this`freed
      ensures Valid() && (freed <==> !(if writable then old(readopen) else old(writeopen)))
      ensures writeopen == (old(writeopen) && !writable) && readopen == (old(readopen) && writable)
      ensures forall ch :: Ready(ch) && !old(Ready(ch)) ==> ch in woken
    {
      if writable {
        writeopen := false;
        woken := {Readers};
      } else {
        readopen := false;
        woken := {Writers};
      }
      if !readopen && !writeopen {
        freed := true;
      }
    }

    /** data[nwrite++ % PIPESIZE] = ch, when there is room. */
    method Put(ch: Byte)
      requires Valid() && |accepted| < |consumed| + PIPESIZE
      modifies this`nwrite, this`accepted, data
      ensures Valid() && accepted == old(accepted) + [ch]
    {
      ghost var end := |accepted|;
      SlotOf(end);
      NextIndex(end);
      data[nwrite % PIPESIZE] := ch;
      nwrite := (nwrite + 1) % WRAP;
      accepted := accepted + [ch];
      forall k | |consumed| <= k < |accepted| ensures data[k % PIPESIZE] == accepted[k] {
        if k < end {
          SlotsApart(k, end);
        }
      }
    }

    /** ch = data[nread++ % PIPESIZE], when there is a byte. */
    method Get() returns (ch: Byte)
      requires Valid() && |consumed| < |accepted|
      modifies this`nread, this`consumed
      ensures Valid() && consumed == old(consumed) + [ch]
    {
      SlotOf(|consumed|);
      NextIndex(|consumed|);
      ch := data[nread % PIPESIZE];
      assert accepted[..|consumed| + 1] == accepted[..|consumed|] + [accepted[|consumed|]];
      nread := (nread + 1) % WRAP;
      consumed := consumed + [ch];
    }

    /**
     pipewrite from byte i0 of src on, until done or asleep; byte `bad` of src cannot be
     copied in, and from byte `kill` on the process is found killed.  Whoever can go on
     because of it is woken, except in one case: a process that is found killed when it has
     just put bytes into an empty pipe leaves the readers asleep.
     */
    method Write(src: seq<Byte>, bad: nat, kill: nat, i0: nat) returns (out: Outcome, i: nat, woken: set<Chan>)
      requires Valid() && i0 <= |src|
      modifies this`nwrite, this`accepted, data
      ensures Valid() && i0 <= i <= |src| && accepted == old(accepted) + src[i0..i]
      ensures out.Failed? <==> i < |src| && (!readopen || kill <= i)
      ensures out.Asleep? <==> i < |src| && readopen && i < kill && |Buffered()| == PIPESIZE
      ensures out.Done? <==> i == |src| || (i == bad && readopen && i < kill && |Buffered()| < PIPESIZE)
      ensures !readopen && i0 < |src| ==> i == i0
      ensures i > i0 ==> i <= kill && (i <= bad || bad < i0)
      ensures out.Asleep? ==> !Ready(Writers)
      ensures forall ch :: Ready(ch) && !old(Ready(ch)) && ch !in woken <==>
                ch == Readers && old(Buffered()) == [] && writeopen && out.Failed? && i > i0
    {
      i := i0;
      woken := {};
      while i < |src|
        invariant Valid() && i0 <= i <= |src| && accepted == old(accepted) + src[i0..i]
        invariant !readopen ==> i == i0
        invariant i > i0 ==> i <= kill && (i <= bad || bad < i0)
      {
        var killed := kill <= i;
        if !readopen || killed {
          return Failed, i, woken;
        }
        FullTest(|accepted|, |consumed|);
        if nwrite == (nread + PIPESIZE) % WRAP {
          return Asleep, i, {Readers};
        }
        if i == bad {
          break;
        }
        Put(src[i]);
        assert src[i0..i + 1] == src[i0..i] + [src[i]];
        i := i + 1;
      }
      out, woken := Done, {Readers};
    }

    /**
     piperead of at most n bytes; the byte for position `bad` cannot be copied out, and is
     consumed all the same.  Without faults the reader gets exactly the oldest bytes.
     */
    method Read(n: nat, bad: nat, killed: bool) returns (out: Outcome, got: seq<Byte>, woken: set<Chan>)
      requires Valid()
      modifies this`nread, this`consumed
      ensures Valid()
      ensures out.Done? <==> old(Buffered()) != [] || !writeopen
      ensures !out.Done? ==> consumed == old(consumed) && got == [] && (out.Failed? <==> killed)
      ensures out.Done? ==> |got| == Least(n, bad, |old(Buffered())|)
      ensures out.Done? ==> got == old(Buffered())[..|got|]
      ensures out.Done? ==> consumed == old(consumed) + old(Buffered())[..|got| + Lost(n, bad, |old(Buffered())|)]
      ensures out.Asleep? ==> !Ready(Readers)
      ensures forall ch :: Ready(ch) && !old(Ready(ch)) ==> ch in woken
    {
      FullTest(|accepted|, |consumed|);
      got := [];
      if nread == nwrite && writeopen {
        return if killed then Failed else Asleep, got, {};
      }
      ghost var q := Buffered();
      var i := 0;
      while i < n
        invariant i <= n && i <= bad && i <= |q| && Valid()
        invariant consumed == old(consumed) + q[..i] && got == q[..i]
      {
        FullTest(|accepted|, |consumed|);
        if nread == nwrite {
          break;
        }
        var ch := Get();
        assert q[..i + 1] == q[..i] + [q[i]];
        if i == bad {
          break;
        }
        got := got + [ch];
        i := i + 1;
      }
      out, woken := Done, {Writers};
    }
  }

  /** The one case: two bytes to write, and killed after the first. */
  method KilledWriter() returns (p: Pipe, woken: set<Chan>)
    ensures fresh(p) && p.Valid() && p.Ready(Readers) && Readers !in woken
  {
    p := new Pipe();
    var out, i;
    out, i, woken := p.Write([7, 7], 2, 1, 0);
    assert i == 1;
  }

  function Least(a: nat, b: nat, c: nat): (m: nat) {
    if a <= b && a <= c then a else if b <= c then b else c
  }

  /** One byte is lost when the faulting position is reached. */
  function Lost(n: nat, bad: nat, size: nat): (m: nat) {
    if bad < n && bad < size then 1 else 0
  }
}
