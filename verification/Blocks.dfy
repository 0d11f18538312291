/** Disk blocks, disk images and single-block writes.

    A block is 1024 bytes, seen here as the 256 32-bit words that the log header
    and the indirect blocks are made of.  A disk image is one block per block
    number.  The disk performs whole-block writes one at a time, so the image a
    crash leaves behind is the result of some prefix of the writes issued. */
module Blocks {
  const BWORDS := 256

  datatype Block = Block(words: seq<int>) {
    predicate Full() {
      |words| == BWORDS
    }
  }

  function ZeroBlock(): (b: Block)
    ensures b.Full()
  {
    Block(seq(BWORDS, i requires 0 <= i < BWORDS => 0))
  }

  type Image = seq<Block>

  datatype Write = Write(bno: nat, data: Block)

  ghost predicate InRange(size: nat, ws: seq<Write>) {
    forall i :: 0 <= i < |ws| ==> ws[i].bno < size
  }

  /** The image after performing `ws` in order. */
  ghost function Apply(d: Image, ws: seq<Write>): (r: Image)
    requires InRange(|d|, ws)
    ensures |r| == |d|
  {
    if ws == [] then d
    else
      var last := |ws| - 1;
      Apply(d, ws[..last])[ws[last].bno := ws[last].data]
  }

  lemma ApplyOne(d: Image, ws: seq<Write>, w: Write)
    requires InRange(|d|, ws) && w.bno < |d|
    ensures InRange(|d|, ws + [w]) && Apply(d, ws + [w]) == Apply(d, ws)[w.bno := w.data]
  {
    assert (ws + [w])[..|ws + [w]| - 1] == ws;
  }

  lemma {:induction false} ApplyConcat(d: Image, a: seq<Write>, b: seq<Write>)
    requires InRange(|d|, a) && InRange(|d|, b)
    ensures InRange(|d|, a + b)
    ensures Apply(d, a + b) == Apply(Apply(d, a), b)
  {
    if b == [] {
      assert a + b == a;
    } else {
      ApplyConcat(d, a, b[..|b| - 1]);
      assert (a + b)[..|a + b| - 1] == a + b[..|b| - 1];
    }
  }

  /** A block that none of the writes names keeps its contents. */
  lemma {:induction false} ApplyFrame(d: Image, ws: seq<Write>, b: nat)
    requires InRange(|d|, ws) && b < |d|
    requires forall i :: 0 <= i < |ws| ==> ws[i].bno != b
    ensures Apply(d, ws)[b] == d[b]
  {
    if ws != [] {
      ApplyFrame(d, ws[..|ws| - 1], b);
    }
  }

  /** A block ends up with the data of the last write that names it. */
  lemma {:induction false} ApplyLast(d: Image, ws: seq<Write>, i: nat)
    requires InRange(|d|, ws) && i < |ws|
    requires forall j :: i < j < |ws| ==> ws[j].bno != ws[i].bno
    ensures Apply(d, ws)[ws[i].bno] == ws[i].data
  {
    if i < |ws| - 1 {
      ApplyLast(d, ws[..|ws| - 1], i);
    }
  }

  /** The virtio disk as the buffer cache sees it: `image` is what survives a
      crash, `trace` the writes issued so far. */
  class Disk {
    var image: Image
    ghost var trace: seq<Write>

    constructor (d: Image)
      ensures image == d && trace == []
    {
      image := d;
      trace := [];
    }

    method Read(bno: nat) returns (data: Block)
      requires bno < |image|
      ensures data == image[bno]
    {
      data := image[bno];
    }

    method WriteBlock(bno: nat, data: Block)
      requires bno < |image|
      modifies this
      ensures image == old(image)[bno := data]
      ensures trace == old(trace) + [Write(bno, data)]
    {
      image := image[bno := data];
      trace := trace + [Write(bno, data)];
    }
  }
}
