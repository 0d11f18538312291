/** Pipes: kernel/pipe.c.  Each method is what a call does with the pipe's lock held,
    between the points where it sleeps; calls of any number of readers and writers may
    alternate in any order. */
module Pipe {
  const PIPESIZE := 512

  /** A 32-bit counter after n steps. */
  function Wrap(n: int): int {
    n % 0x1_0000_0000
  }

  lemma WrapOk(n: int, m: int)
    requires 0 <= n <= m <= n + PIPESIZE
    ensures Wrap(n) % PIPESIZE == n % PIPESIZE && Wrap(Wrap(n) + 1) == Wrap(n + 1)
    ensures Wrap(n) == Wrap(m) <==> n == m
    ensures Wrap(m) == Wrap(Wrap(n) + PIPESIZE) <==> m == n + PIPESIZE
  {
  }

  /** Positions lo .. hi - 1 of the stream lie in the ring. */
  ghost predicate Holds(data: seq<int>, stream: seq<int>, lo: int) {
    && |data| == PIPESIZE && 0 <= lo <= |stream| <= lo + PIPESIZE
    && forall k {:trigger stream[k]} :: lo <= k < |stream| ==> data[k % PIPESIZE] == stream[k]
  }

  lemma SlotsDiffer(j: int, k: int)
    requires 0 <= j < k < j + PIPESIZE
    ensures j % PIPESIZE != k % PIPESIZE
  {
  }

  lemma Push(data: seq<int>, stream: seq<int>, lo: int, ch: int)
    requires Holds(data, stream, lo) && |stream| < lo + PIPESIZE
    ensures Holds(data[|stream| % PIPESIZE := ch], stream + [ch], lo)
  {
    var stream' := stream + [ch];
    forall k | lo <= k < |stream'| ensures data[|stream| % PIPESIZE := ch][k % PIPESIZE] == stream'[k] {
      if k < |stream| {
        assert stream'[k] == stream[k];
        SlotsDiffer(k, |stream|);
      }
    }
  }

  /** How a stretch of a call ends: it sleeps and will go on, or it returns. */
  datatype Outcome = Sleeps | Returns(r: int)

  class Pipe {
    var data: seq<int>
    var nread: int
    var nwrite: int
    var readopen: bool
    var writeopen: bool
    /** All bytes ever accepted from writers, and how many of them readers have got. */
    ghost var accepted: seq<int>
    ghost var taken: int

    ghost predicate Valid()
      reads this
    {
      Holds(data, accepted, taken) && nwrite == Wrap(|accepted|) && nread == Wrap(taken)
    }

    /** The bytes delivered to readers. */
    ghost function Delivered(): seq<int>
      reads this
      requires Valid()
    {
      accepted[..taken]
    }

    /** pipealloc(). */
    constructor ()
      ensures Valid() && accepted == [] && taken == 0 && readopen && writeopen
    {
      data, nread, nwrite, readopen, writeopen := seq(PIPESIZE, _ => 0), 0, 0, true, true;
      accepted, taken := [], 0;
    }

    /** pipeclose(): the result says whether the pipe is freed. */
    method Close(writable: bool) returns (freed: bool)
      requires Valid()
      modifies this`readopen, this`writeopen
      ensures Valid() && accepted == old(accepted) && taken == old(taken)
      ensures writeopen == (old(writeopen) && !writable) && readopen == (old(readopen) && writable)
      ensures freed <==> !readopen && !writeopen
    {
      if writable {
        writeopen := false;
      } else {
        readopen := false;
      }
      freed := !readopen && !writeopen;
    }

    predicate Full()
      reads this
      requires Valid()
      ensures Full() <==> |accepted| - taken == PIPESIZE
    {
      WrapOk(taken, |accepted|);
      nwrite == Wrap(nread + PIPESIZE)
    }

    predicate Empty()
      reads this
      requires Valid()
      ensures Empty() <==> taken == |accepted|
    {
      WrapOk(taken, |accepted|);
      nread == nwrite
    }

    /** nread++, after data[nread % PIPESIZE] was copied out. */
    method GetByte() returns (ch: int)
      requires Valid() && taken < |accepted|
      modifies this`nread, this`taken
      ensures Valid() && taken == old(taken) + 1 && ch == accepted[old(taken)]
    {
      WrapOk(taken, taken);
      ch := data[nread % PIPESIZE];
      assert ch == accepted[taken];
      nread := Wrap(nread + 1);
      taken := taken + 1;
    }

    /** data[nwrite++ % PIPESIZE] = ch. */
    method PutByte(ch: int)
      requires Valid() && |accepted| < taken + PIPESIZE
      modifies this`data, this`nwrite, this`accepted
      ensures Valid() && accepted == old(accepted) + [ch]
    {
      WrapOk(|accepted|, |accepted|);
      Push(data, accepted, taken, ch);
      data := data[nwrite % PIPESIZE := ch];
      nwrite := Wrap(nwrite + 1);
      accepted := accepted + [ch];
    }

    /** pipewrite() of `bytes`, from byte i on, until it sleeps or returns; copyin() works
        for the first `good` bytes, and killed[k] is what the test before byte k finds.  It
        stops at the first byte before which one of four things holds, tested in this order:
        all is written; no reader is left or the process is killed; the pipe is full; the
        byte cannot be copied in. */
    method Write(bytes: seq<int>, i: int, good: nat, killed: seq<bool>) returns (i': int, o: Outcome)
      requires Valid() && 0 <= i <= |bytes| == |killed|
      modifies this`data, this`nwrite, this`accepted
      ensures Valid() && i <= i' <= |bytes| && accepted == old(accepted) + bytes[i..i']
      ensures (forall k :: i <= k < i' ==> !killed[k]) && (i < i' ==> readopen && i' <= good)
      ensures i' - i <= PIPESIZE - (|old(accepted)| - taken)
      ensures if i' == |bytes| then o == Returns(i')
              else if !readopen || killed[i'] then o == Returns(-1)
              else if |accepted| - taken == PIPESIZE then o == Sleeps
              else o == Returns(i') && i' >= good
    {
      i' := i;
      while i' < |bytes|
        invariant Valid() && i <= i' <= |bytes| && accepted == old(accepted) + bytes[i..i']
        invariant forall k :: i <= k < i' ==> !killed[k]
        invariant i < i' ==> readopen && i' <= good
      {
        if !readopen || killed[i'] {
          return i', Returns(-1);
        }
        if Full() {
          return i', Sleeps;
        }
        if i' >= good {
          break;
        }
        PutByte(bytes[i']);
        assert bytes[i..i' + 1] == bytes[i..i'] + [bytes[i']];
        i' := i' + 1;
      }
      o := Returns(i');
    }

    /** piperead() of up to n bytes, until it sleeps or returns; copyout() works for the
        first `good` bytes.  It sleeps, or fails when killed, exactly if the pipe is empty with
        a writer left.  Otherwise what it delivers continues what was delivered before: as
        much as is asked for, there, and can be copied out; -1 only if of some not even one
        can. */
    method Read(n: int, good: nat, killed: bool) returns (bytes: seq<int>, o: Outcome)
      requires Valid()
      modifies this`nread, this`taken
      ensures Valid() && Delivered() == old(Delivered()) + bytes
      ensures var held := |accepted| - old(taken);
              var ready := if n < 0 then 0 else if n <= held then n else held;
              if held == 0 && writeopen then bytes == [] && o == if killed then Returns(-1) else Sleeps
              else if 0 < ready && good <= 0 then bytes == [] && o == Returns(-1)
              else |bytes| == (if good < ready then good else ready) && o == Returns(|bytes|)
    {
      bytes := [];
      if Empty() && writeopen {
        if killed {
          return bytes, Returns(-1);
        }
        return bytes, Sleeps;
      }
      var i := 0;
      while i < n
        invariant Valid() && 0 <= i == |bytes| && (i > 0 ==> i <= n && i <= good) && taken == old(taken) + i
        invariant bytes == accepted[old(taken)..taken]
      {
        if Empty() {
          break;
        }
        if i >= good {
          assert accepted[..taken] == accepted[..old(taken)] + bytes;
          return bytes, Returns(if i == 0 then -1 else i);
        }
        var ch := GetByte();
        bytes := bytes + [ch];
        i := i + 1;
      }
      assert accepted[..taken] == accepted[..old(taken)] + bytes;
      o := Returns(i);
    }
  }

  /** Whatever is written is read: bytes put into an empty pipe, up to what fits, come out as
      they are, and then a reader meets the end once the writing end is closed. */
  method Through(bytes: seq<int>) returns (out: seq<int>, end: Outcome)
    requires |bytes| <= PIPESIZE
    ensures out == bytes && end == Returns(0)
  {
    var p := new Pipe();
    var i;
    i, end := p.Write(bytes, 0, |bytes|, seq(|bytes|, _ => false));
    assert i == |bytes| && p.accepted == bytes && p.taken == 0;
    var freed := p.Close(true);
    out, end := p.Read(|bytes|, |bytes|, false);
    assert |out| == |bytes| && p.Delivered() == out;
    var none;
    none, end := p.Read(1, 1, false);
  }
}
