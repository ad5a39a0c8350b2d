// The canonical cutting of a firmware image into chunks: the reference that the
// download pipeline is measured against. Nothing here knows about packets,
// pools or threads.
module FirmwareChunks {
  import opened Arithmetic
  import opened Bytes

  // What one call of the user's data callback is given.
  datatype Chunk = Chunk(offset: nat, data: seq<Byte>, last: bool)

  // Cuts `image` from `start` on, `size` bytes at a time.
  function Cut(image: seq<Byte>, size: nat, start: nat): (chunks: seq<Chunk>)
    requires 0 < size
    decreases |image| - start
  {
    if |image| <= start then []
    else
      var end := Min(start + size, |image|);
      [Chunk(start, image[start..end], end == |image|)] + Cut(image, size, end)
  }

  function Canonical(image: seq<Byte>, size: nat): seq<Chunk>
    requires 0 < size
  {
    Cut(image, size, 0)
  }

  // Where chunk `k` starts, and the end of the image after the last one.
  function OffsetAt(image: seq<Byte>, chunks: seq<Chunk>, k: nat): nat {
    if k < |chunks| then chunks[k].offset else |image|
  }

  function Concat(chunks: seq<Chunk>): seq<Byte> {
    if chunks == [] then [] else chunks[0].data + Concat(chunks[1..])
  }

  ghost predicate WellCut(image: seq<Byte>, size: nat, chunks: seq<Chunk>, k: nat)
    requires 0 < size && k < |chunks|
  {
    var c := chunks[k];
    && c.offset % size == 0
    && c.offset < |image|
    && 0 < |c.data| <= size
    && OffsetAt(image, chunks, k + 1) == c.offset + |c.data| <= |image|
    && c.data == image[c.offset..c.offset + |c.data|]
    && (c.last <==> k + 1 == |chunks|)
    && (!c.last ==> |c.data| == size)
  }

  // Chunk by chunk: offsets are multiples of the chunk size, every chunk but
  // the final one is full, `last` marks exactly the final one, and chunk k ends
  // where chunk k + 1 starts.
  lemma {:induction false} CutWell(image: seq<Byte>, size: nat, start: nat, k: nat)
    requires 0 < size && (start % size == 0 || start == |image|)
    requires k < |Cut(image, size, start)|
    ensures WellCut(image, size, Cut(image, size, start), k)
    ensures Cut(image, size, start)[0].offset == start
    ensures start < |image|
    decreases |image| - start
  {
    var cs := Cut(image, size, start);
    var end := Min(start + size, |image|);
    var rest := Cut(image, size, end);
    assert start < |image| && cs == [cs[0]] + rest;
    if end < |image| {
      MultipleStep(start, size);
      assert rest != [];
      CutWell(image, size, end, 0);
    } else {
      assert rest == [];
    }
    if 0 < k {
      CutWell(image, size, end, k - 1);
      assert cs[k] == rest[k - 1];
    }
  }

  lemma CanonicalWell(image: seq<Byte>, size: nat)
    requires 0 < size
    ensures forall k :: 0 <= k < |Canonical(image, size)| ==> WellCut(image, size, Canonical(image, size), k)
    ensures OffsetAt(image, Canonical(image, size), 0) == 0
  {
    forall k | 0 <= k < |Canonical(image, size)|
      ensures WellCut(image, size, Canonical(image, size), k)
    {
      CutWell(image, size, 0, k);
    }
    if Canonical(image, size) != [] {
      CutWell(image, size, 0, 0);
    }
  }

  // Conservation: the chunks hold every byte of the image once and in order.
  lemma {:induction false} CutConcat(image: seq<Byte>, size: nat, start: nat)
    requires 0 < size && start <= |image|
    ensures Concat(Cut(image, size, start)) == image[start..]
    decreases |image| - start
  {
    if |image| <= start {
    } else {
      var end := Min(start + size, |image|);
      CutConcat(image, size, end);
      assert Cut(image, size, start)[1..] == Cut(image, size, end);
      assert image[start..] == image[start..end] + image[end..];
    }
  }
}
