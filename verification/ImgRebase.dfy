/**
  Safe `qemu-img rebase` (qemu/qemu-img.c): the clusters in which the old and the new
  backing file differ are copied into the overlay before the backing file is changed.
 */
module ImgRebase {
  import opened ImgBuffers

  /** The overlay on its own: what is not allocated is read from the backing file. */
  datatype Disk = Disk(alloc: seq<bool>, data: seq<Byte>)

  /** A byte of a backing file, which reads as zero beyond its end. */
  function ByteAt(backing: seq<Byte>, k: nat): Byte {
    if k < |backing| then backing[k] else 0
  }

  function Read(d: Disk, backing: seq<Byte>, k: nat): Byte
    requires k < |d.alloc| == |d.data|
  {
    if d.alloc[k] then d.data[k] else ByteAt(backing, k)
  }

  /** Over this backing file the overlay shows `contents`. */
  ghost predicate Shows(d: Disk, backing: seq<Byte>, contents: seq<Byte>) {
    |d.alloc| == |d.data| == |contents| && forall k | 0 <= k < |contents| :: Read(d, backing, k) == contents[k]
  }

  /** `d'` is `d` with `bytes` written at `offset`. */
  ghost predicate Written(d: Disk, d': Disk, offset: nat, bytes: seq<Byte>) {
    && |d.alloc| == |d.data| == |d'.alloc| == |d'.data|
    && forall k | 0 <= k < |d.data| ::
         if offset <= k < offset + |bytes| then d'.alloc[k] && d'.data[k] == bytes[k - offset]
         else d'.alloc[k] == d.alloc[k] && d'.data[k] == d.data[k]
  }

  class Overlay {
    var disk: Disk
    ghost var history: seq<Disk>   // the overlay after every write so far

    constructor (disk: Disk)
      ensures this.disk == disk && history == []
    {
      this.disk, history := disk, [];
    }

    /** blk_pwrite and blk_pwrite_zeroes, which may fail half way if there are I/O errors. */
    method Write(offset: nat, bytes: seq<Byte>, errors: bool) returns (ok: bool, ghost m: nat)
      requires |disk.alloc| == |disk.data| && offset + |bytes| <= |disk.data|
      modifies this
      ensures m <= |bytes| && (ok ==> m == |bytes|) && (!ok ==> errors)
      ensures Written(old(disk), disk, offset, bytes[..m])
      ensures history == old(history) + [disk]
    {
      ok := true;
      var done := |bytes|;
      if errors {
        done :| 0 <= done <= |bytes|;
        ok := done == |bytes|;
      }
      m := done;
      var marks := seq(done, _ => true);
      disk := Disk(disk.alloc[..offset] + marks + disk.alloc[offset + done..],
                   disk.data[..offset] + bytes[..done] + disk.data[offset + done..]);
      history := history + [disk];
    }
  }

  // ---------------------------------------------------------- alignment

  function BlockStart(k: nat, align: nat): (r: nat)
    requires align > 0
    ensures r <= k < r + align && r % align == 0
  {
    AlignDown(k, align);
    k - k % align
  }

  /** QEMU_ALIGN_UP */
  function BlockEnd(k: nat, align: nat): (r: nat)
    requires align > 0
    ensures k <= r < k + align && r % align == 0
  {
    AlignUp(k, align);
    if k % align == 0 then k else k + align - k % align
  }

  /** Between two multiples of the alignment there is room for a whole block. */
  lemma MultiplesApart(a: nat, b: nat, align: nat)
    requires align > 0 && a % align == 0 && b % align == 0 && a < b
    ensures a + align <= b
  {
    var p, q := a / align, b / align;
    Distribute(q, p, align);
    if q <= p {
      assert (p - q) * align >= 0;
      Distribute(p, q, align);
    } else {
      NonzeroProduct(q - p, align);
    }
  }

  /** A block lies on one side of a multiple of the alignment. */
  lemma OneSide(lo: nat, k: nat, align: nat)
    requires align > 0 && lo % align == 0
    ensures lo <= k <==> lo <= BlockStart(k, align)
  {
    if BlockStart(k, align) < lo {
      MultiplesApart(BlockStart(k, align), lo, align);
    }
  }

  lemma SameBlock(j: nat, k: nat, align: nat)
    requires align > 0 && BlockStart(k, align) <= j < BlockStart(k, align) + align
    ensures BlockStart(j, align) == BlockStart(k, align)
  {
    OneSide(BlockStart(k, align), j, align);
    if BlockStart(k, align) < BlockStart(j, align) {
      MultiplesApart(BlockStart(k, align), BlockStart(j, align), align);
    }
  }

  /** Every block of the overlay is allocated as a whole or not at all. */
  ghost predicate BlockUniform(alloc: seq<bool>, align: nat)
    requires align > 0
  {
    forall k | 0 <= k < |alloc| :: alloc[k] == alloc[BlockStart(k, align)]
  }

  ghost predicate Free(alloc: seq<bool>, lo: nat, hi: nat) {
    forall k | lo <= k < hi && k < |alloc| :: !alloc[k]
  }

  /** Widening a free range to block boundaries keeps it free. */
  lemma WidenFree(alloc: seq<bool>, align: nat, lo: nat, hi: nat)
    requires align > 0 && BlockUniform(alloc, align) && lo < hi <= |alloc| && Free(alloc, lo, hi)
    ensures Free(alloc, BlockStart(lo, align), BlockEnd(hi, align))
  {
    forall k | BlockStart(lo, align) <= k < BlockEnd(hi, align) && k < |alloc| ensures !alloc[k] {
      if k < lo {
        SameBlock(k, lo, align);
        assert alloc[lo] == alloc[BlockStart(lo, align)];
      } else if k >= hi {
        LastBlock(hi, k, align);
        assert alloc[hi - 1] == alloc[BlockStart(hi - 1, align)];
      }
      assert alloc[k] == alloc[BlockStart(k, align)];
    }
  }

  lemma LastBlock(hi: nat, k: nat, align: nat)
    requires align > 0 && 0 < hi <= k < BlockEnd(hi, align)
    ensures BlockStart(k, align) == BlockStart(hi - 1, align)
  {
    var s := BlockStart(hi - 1, align);
    if s + align < BlockEnd(hi, align) {
      AlignedSum(s, align);
      MultiplesApart(s + align, BlockEnd(hi, align), align);
    }
    SameBlock(k, hi - 1, align);
  }

  lemma AlignedSum(s: nat, align: nat)
    requires align > 0 && s % align == 0
    ensures (s + align) % align == 0
  {
    NextMultiple(s, align, align);
  }

  // ----------------------------------------------------------- the copying

  predicate Agree(before: seq<Byte>, after: seq<Byte>, lo: nat, hi: nat) {
    forall k: nat | lo <= k < hi :: ByteAt(before, k) == ByteAt(after, k)
  }

  /** Reading a backing file that may be shorter than the request. */
  method ReadBacking(backing: seq<Byte>, offset: nat, n: nat) returns (buf: seq<Byte>, eof: bool)
    ensures |buf| == n && forall i | 0 <= i < n :: buf[i] == ByteAt(backing, offset + i)
    ensures n > 0 ==> (eof <==> offset >= |backing|)
  {
    var m := Min(n, Max(0, |backing| - offset));
    eof := m == 0;
    buf := if eof then [] else backing[offset..offset + m];
    buf := buf + seq(n - m, _ => 0);
  }

  /** What the overlay may have become: it still shows `contents` over the old backing file, has lost no allocation, and has
      changed only between `lo` and `hi`. */
  ghost predicate Progress(d0: Disk, d: Disk, before: seq<Byte>, contents: seq<Byte>, lo: nat, hi: nat) {
    && Shows(d, before, contents) && |d0.alloc| == |d.alloc|
    && (forall k | 0 <= k < |d.alloc| && d0.alloc[k] :: d.alloc[k])
    && forall k | 0 <= k < |d.alloc| && !(lo <= k < hi) :: d.alloc[k] == d0.alloc[k]
  }

  /** Every write so far has left the old contents visible over the old backing file. */
  ghost predicate NoHarm(history: seq<Disk>, from: nat, before: seq<Byte>, contents: seq<Byte>) {
    forall i | from <= i < |history| :: Shows(history[i], before, contents)
  }

  /** The backing files differ somewhere in the block of byte `k`, as far as it is inside the image. */
  ghost predicate BlockDiffers(before: seq<Byte>, after: seq<Byte>, align: nat, k: nat, size: nat)
    requires align > 0
  {
    exists j: nat :: BlockStart(k, align) <= j < BlockStart(k, align) + align && j < size && ByteAt(before, j) != ByteAt(after, j)
  }

  /** Allocations have appeared only in blocks in which the backing files differ. */
  ghost predicate Sparing(alloc: seq<bool>, alloc': seq<bool>, before: seq<Byte>, after: seq<Byte>, align: nat)
    requires align > 0
  {
    |alloc'| == |alloc| &&
    forall k: nat | k < |alloc| && alloc'[k] && !alloc[k] :: BlockDiffers(before, after, align, k, |alloc|)
  }

  lemma SparingTwice(a: seq<bool>, b: seq<bool>, c: seq<bool>, before: seq<Byte>, after: seq<Byte>, align: nat)
    requires align > 0 && Sparing(a, b, before, after, align) && Sparing(b, c, before, after, align)
    ensures Sparing(a, c, before, after, align)
  {
    hide BlockDiffers;
  }

  /** Where compare_buffers has found differing chunks, every block differs. */
  lemma ChunksDiffer(bufOld: seq<Byte>, bufNew: seq<Byte>, before: seq<Byte>, after: seq<Byte>, offset: nat, written: nat,
                     pnum: nat, align: nat, size: nat)
    requires align > 0 && offset % align == 0 && written % align == 0
    requires |bufOld| == |bufNew| && written + pnum <= |bufOld| && offset + |bufOld| <= size
    requires forall i | 0 <= i < |bufOld| :: bufOld[i] == ByteAt(before, offset + i) && bufNew[i] == ByteAt(after, offset + i)
    requires forall i: nat | i < pnum && i % align == 0 :: ChunkDiffers(bufOld[written..], bufNew[written..], i, align)
    ensures forall k: nat | offset + written <= k < offset + written + pnum :: BlockDiffers(before, after, align, k, size)
  {
    forall k: nat | offset + written <= k < offset + written + pnum ensures BlockDiffers(before, after, align, k, size) {
      StillAligned(offset, written, align);
      OneSide(offset + written, k, align);
      var i := BlockStart(k, align) - (offset + written);
      AlignedDifference(offset + written, i, align);
      DifferingByte(bufOld[written..], bufNew[written..], before, after, offset + written, i, align, k, size);
    }
  }

  lemma AlignedDifference(a: nat, b: nat, align: nat)
    requires align > 0 && a % align == 0 && (a + b) % align == 0
    ensures b % align == 0
  {
    var p, q := a / align, (a + b) / align;
    Distribute(q, p, align);
    assert b == (q - p) * align;
    if q < p {
      NonzeroProduct(q - p, align);
    }
    MultipleMod(q - p, align);
  }

  lemma DifferingByte(a: seq<Byte>, b: seq<Byte>, before: seq<Byte>, after: seq<Byte>, base: nat, i: nat, align: nat, k: nat,
                      size: nat)
    requires align > 0 && |a| == |b| && i <= |a| && base + |a| <= size && BlockStart(k, align) == base + i
    requires forall x | 0 <= x < |a| :: a[x] == ByteAt(before, base + x) && b[x] == ByteAt(after, base + x)
    requires ChunkDiffers(a, b, i, align)
    ensures BlockDiffers(before, after, align, k, size)
  {
    var hi := Min(i + align, |a|);
    var x :| 0 <= x < hi - i && a[i..hi][x] != b[i..hi][x];
    assert a[i + x] != b[i + x];
    assert ByteAt(before, base + i + x) != ByteAt(after, base + i + x);
  }

  /** The inner loop: the chunks of a free range in which the backing files differ are copied from the old one. */
  method CopyDifferences(o: Overlay, before: seq<Byte>, after: seq<Byte>, offset: nat, n: nat, align: nat, errors: bool,
                         ghost contents: seq<Byte>, ghost from: nat)
    returns (ok: bool)
    requires align > 0 && 0 < n <= IO_BUF_SIZE && offset + n <= |contents| && offset % align == 0
    requires offset + n == |contents| || (offset + n) % align == 0
    requires Shows(o.disk, before, contents) && Free(o.disk.alloc, offset, offset + n)
    requires from <= |o.history| && NoHarm(o.history, from, before, contents)
    modifies o
    ensures Progress(old(o.disk), o.disk, before, contents, offset, offset + n)
    ensures from <= |o.history| && NoHarm(o.history, from, before, contents)
    ensures ok ==> Covered(o.disk.alloc, before, after, offset, offset + n)
    ensures ok && BlockUniform(old(o.disk).alloc, align) ==> BlockUniform(o.disk.alloc, align)
    ensures !ok ==> errors
    ensures Sparing(old(o.disk).alloc, o.disk.alloc, before, after, align)
  {
    hide Shows, NoHarm, BlockUniform, ChunkDiffers, Free, Covered, Progress, BlockDiffers, Sparing;
    SparingStart(o.disk.alloc, before, after, align);
    var bufOld, eof := ReadBacking(before, offset, n);
    var bufNew, _ := ReadBacking(after, offset, n);
    var written := 0;
    ProgressStart(o.disk, before, after, contents, offset);
    if errors {
      ok := *;
      if !ok {
        ProgressWider(o.disk, o.disk, before, contents, offset, offset, offset + n);
        return;
      }
    }
    while written < n
      invariant 0 <= written <= n && (written == n || written % align == 0) && (eof ==> offset + written >= |before|)
      invariant Progress(old(o.disk), o.disk, before, contents, offset, offset + written)
      invariant from <= |o.history| && NoHarm(o.history, from, before, contents)
      invariant Covered(o.disk.alloc, before, after, offset, offset + written)
      invariant BlockUniform(old(o.disk).alloc, align) ==> BlockUniform(o.disk.alloc, align)
      invariant Sparing(old(o.disk).alloc, o.disk.alloc, before, after, align)
    {
      ghost var alloc := o.disk.alloc;
      var differ, pnum := CompareBuffers(bufOld[written..], bufNew[written..], align);
      StillAligned(written, pnum, align);
      if differ {
        assert eof || written + pnum <= IO_BUF_SIZE;
        var bytes := if eof then seq(pnum, _ => 0) else bufOld[written..written + pnum];
        ChunksDiffer(bufOld, bufNew, before, after, offset, written, pnum, align, |contents|);
        ok := WriteChunk(o, before, after, offset, n, written, bytes, align, errors, contents, from, old(o.disk));
        SparingTwice(old(o.disk).alloc, alloc, o.disk.alloc, before, after, align);
        if !ok {
          ProgressWider(old(o.disk), o.disk, before, contents, offset, offset + written + pnum, offset + n);
          return;
        }
      } else {
        SamePrefix(bufOld, bufNew, written, pnum, before, after, offset);
        NothingToDo(old(o.disk), o.disk, before, after, contents, offset, written, pnum);
      }
      written := written + pnum;
      if offset + written >= |before| {
        eof := true;
      }
    }
    ok := true;
  }

  lemma ProgressWider(d0: Disk, d: Disk, before: seq<Byte>, contents: seq<Byte>, lo: nat, hi: nat, hi': nat)
    requires Progress(d0, d, before, contents, lo, hi) && hi <= hi'
    ensures Progress(d0, d, before, contents, lo, hi')
  {
  }

  /** Where a byte is not allocated, both backing files read the same. */
  ghost predicate Covered(alloc: seq<bool>, before: seq<Byte>, after: seq<Byte>, lo: nat, hi: nat) {
    forall k: nat | lo <= k < hi && k < |alloc| :: alloc[k] || ByteAt(before, k) == ByteAt(after, k)
  }

  /** One write, of what the old backing file reads as. */
  method WriteChunk(o: Overlay, before: seq<Byte>, after: seq<Byte>, offset: nat, n: nat, written: nat, bytes: seq<Byte>,
                    align: nat, errors: bool, ghost contents: seq<Byte>, ghost from: nat, ghost d0: Disk)
    returns (ok: bool)
    requires align > 0 && offset % align == 0 && written % align == 0 && written + |bytes| <= n && offset + n <= |contents|
    requires |bytes| % align == 0 || written + |bytes| == n
    requires offset + n == |contents| || (offset + n) % align == 0
    requires Progress(d0, o.disk, before, contents, offset, offset + written) && Free(d0.alloc, offset, offset + n)
    requires Covered(o.disk.alloc, before, after, offset, offset + written)
    requires forall i | 0 <= i < |bytes| :: bytes[i] == ByteAt(before, offset + written + i)
    requires forall k: nat | offset + written <= k < offset + written + |bytes| ::
               BlockDiffers(before, after, align, k, |contents|)
    requires from <= |o.history| && NoHarm(o.history, from, before, contents)
    modifies o
    ensures Progress(d0, o.disk, before, contents, offset, offset + written + |bytes|)
    ensures ok ==> Covered(o.disk.alloc, before, after, offset, offset + written + |bytes|)
    ensures from <= |o.history| && NoHarm(o.history, from, before, contents)
    ensures ok && BlockUniform(old(o.disk).alloc, align) ==> BlockUniform(o.disk.alloc, align)
    ensures !ok ==> errors
    ensures Sparing(old(o.disk).alloc, o.disk.alloc, before, after, align)
  {
    hide BlockUniform, Shows, BlockDiffers;
    ghost var d := o.disk;
    StillAligned(offset, written, align);
    StillAligned(offset + written, |bytes|, align);
    assert |d.alloc| == |d.data| == |contents| by { ShowsSize(d, before, contents); }
    ghost var m;
    ok, m := o.Write(offset + written, bytes, errors);
    WriteShows(d, o.disk, before, contents, offset + written, bytes[..m]);
    if ok {
      WriteUniform(d.alloc, o.disk.alloc, align, offset + written, offset + written + |bytes|);
    }
  }

  lemma SparingStart(alloc: seq<bool>, before: seq<Byte>, after: seq<Byte>, align: nat)
    requires align > 0
    ensures Sparing(alloc, alloc, before, after, align)
  {
  }

  lemma ShowsSize(d: Disk, before: seq<Byte>, contents: seq<Byte>)
    requires Shows(d, before, contents)
    ensures |d.alloc| == |d.data| == |contents|
  {
  }

  lemma ProgressStart(d: Disk, before: seq<Byte>, after: seq<Byte>, contents: seq<Byte>, offset: nat)
    requires Shows(d, before, contents)
    ensures Progress(d, d, before, contents, offset, offset) && Covered(d.alloc, before, after, offset, offset)
  {
  }

  lemma NothingToDo(d0: Disk, d: Disk, before: seq<Byte>, after: seq<Byte>, contents: seq<Byte>, offset: nat, written: nat,
                    pnum: nat)
    requires Progress(d0, d, before, contents, offset, offset + written)
    requires Covered(d.alloc, before, after, offset, offset + written)
    requires forall k: nat | offset + written <= k < offset + written + pnum :: ByteAt(before, k) == ByteAt(after, k)
    ensures Progress(d0, d, before, contents, offset, offset + written + pnum)
    ensures Covered(d.alloc, before, after, offset, offset + written + pnum)
  {
  }

  lemma WriteShows(d: Disk, d': Disk, before: seq<Byte>, contents: seq<Byte>, offset: nat, bytes: seq<Byte>)
    requires Shows(d, before, contents) && Written(d, d', offset, bytes) && offset + |bytes| <= |contents|
    requires Free(d.alloc, offset, offset + |bytes|)
    requires forall i | 0 <= i < |bytes| :: bytes[i] == ByteAt(before, offset + i)
    ensures Shows(d', before, contents)
  {
    forall k | 0 <= k < |contents| ensures Read(d', before, k) == contents[k] {
      assert Read(d, before, k) == contents[k];
      if offset <= k < offset + |bytes| {
        assert bytes[k - offset] == ByteAt(before, offset + (k - offset));
      }
    }
  }

  lemma WriteUniform(alloc: seq<bool>, alloc': seq<bool>, align: nat, lo: nat, hi: nat)
    requires align > 0 && lo % align == 0 && (hi % align == 0 || hi == |alloc|) && |alloc'| == |alloc|
    requires forall k | 0 <= k < |alloc| :: alloc'[k] == (lo <= k < hi || alloc[k])
    ensures BlockUniform(alloc, align) ==> BlockUniform(alloc', align)
  {
    forall k | 0 <= k < |alloc| ensures lo <= k < hi <==> lo <= BlockStart(k, align) < hi {
      OneSide(lo, k, align);
      if hi % align == 0 { OneSide(hi, k, align); }
    }
  }

  lemma SamePrefix(a: seq<Byte>, b: seq<Byte>, written: nat, pnum: nat, before: seq<Byte>, after: seq<Byte>, offset: nat)
    requires |a| == |b| && written + pnum <= |a| && a[written..][..pnum] == b[written..][..pnum]
    requires forall i | 0 <= i < |a| :: a[i] == ByteAt(before, offset + i) && b[i] == ByteAt(after, offset + i)
    ensures forall k: nat | offset + written <= k < offset + written + pnum :: ByteAt(before, k) == ByteAt(after, k)
  {
    forall k: nat | offset + written <= k < offset + written + pnum ensures ByteAt(before, k) == ByteAt(after, k) {
      var i := k - offset;
      assert a[written..][..pnum][i - written] == a[i] && b[written..][..pnum][i - written] == b[i];
      assert a[i] == ByteAt(before, offset + i) && b[i] == ByteAt(after, offset + i);
    }
  }

  lemma StillAligned(a: nat, b: nat, align: nat)
    requires align > 0 && a % align == 0
    ensures b % align == 0 ==> (a + b) % align == 0
  {
    if b % align == 0 {
      var p, q := a / align, b / align;
      assert a + b == (p + q) * align;
      MultipleMod(p + q, align);
    }
  }

  /** The whole block of byte `k` is free. */
  ghost predicate BlockFree(alloc: seq<bool>, align: nat, k: nat)
    requires align > 0
  {
    Free(alloc, BlockStart(k, align), BlockStart(k, align) + align)
  }

  /** Allocations only appear, and only in blocks that were free. */
  ghost predicate Grown(alloc: seq<bool>, alloc': seq<bool>, align: nat)
    requires align > 0
  {
    && |alloc'| == |alloc|
    && (forall k | 0 <= k < |alloc| && alloc[k] :: alloc'[k])
    && forall k: nat | k < |alloc| && alloc'[k] && !alloc[k] :: BlockFree(alloc, align, k)
  }

  /** Every block that meets a range of whole free blocks is free. */
  lemma BlocksInside(alloc: seq<bool>, align: nat, lo: nat, hi: nat)
    requires align > 0 && lo % align == 0 && (hi % align == 0 || hi == |alloc|) && Free(alloc, lo, hi)
    ensures forall k: nat | lo <= k < hi && k < |alloc| :: BlockFree(alloc, align, k)
  {
    forall k: nat | lo <= k < hi && k < |alloc| ensures BlockFree(alloc, align, k) {
      forall j: nat | BlockStart(k, align) <= j < BlockStart(k, align) + align && j < |alloc| ensures !alloc[j] {
        StaysInside(align, lo, hi, |alloc|, k, j);
      }
    }
  }

  lemma StaysInside(align: nat, lo: nat, hi: nat, size: nat, k: nat, j: nat)
    requires align > 0 && lo % align == 0 && (hi % align == 0 || hi == size) && lo <= k < hi && j < size
    requires BlockStart(k, align) <= j < BlockStart(k, align) + align
    ensures lo <= j < hi
  {
    OneSide(lo, k, align);
    if hi % align == 0 {
      SameBlock(j, k, align);
      OneSide(hi, j, align);
      OneSide(hi, k, align);
    }
  }

  // ------------------------------------------------------------ the loop

  /** Where the new backing file is: not in the old chain, below the old backing file, or the old backing file itself. */
  datatype Chain = Outside | Below | Same

  /** What the queries answer in the round that starts at some offset: bdrv_is_allocated says something about `n` bytes,
      bdrv_is_allocated_above says about `m` bytes whether they are allocated above the new backing file. */
  datatype Answer = Answer(n: nat, above: bool, m: nat)

  /** The answers to one round are true.  Below a backing file that ends earlier nothing is known: `m` is 0 there, and never
      reaches beyond the end. */
  predicate AnswerOk(alloc: seq<bool>, before: seq<Byte>, after: seq<Byte>, chain: Chain, start: nat, a: Answer)
    requires start < |alloc|
  {
    && 0 < a.n <= Min(IO_BUF_SIZE, |alloc| - start) && (forall k | start <= k < start + a.n :: alloc[k] == alloc[start])
    && match chain
       case Outside => true
       case Same => !a.above && a.m == a.n && Agree(before, after, start, start + a.m)
       case Below =>
         if start >= |before| then !a.above && a.m == 0
         else 0 < a.m <= a.n && start + a.m <= |before| && (!a.above ==> Agree(before, after, start, start + a.m))
  }

  ghost predicate AnswersOk(alloc: seq<bool>, before: seq<Byte>, after: seq<Byte>, chain: Chain, ans: nat -> Answer) {
    forall start: nat | start < |alloc| :: AnswerOk(alloc, before, after, chain, start, ans(start))
  }

  /** Nothing is to be done: allocated, or not changed since the new backing file. */
  predicate Skips(alloc: seq<bool>, chain: Chain, start: nat, a: Answer)
    requires start < |alloc|
  {
    alloc[start] || (!chain.Outside? && !a.above && a.m > 0)
  }

  function SkipTo(alloc: seq<bool>, start: nat, a: Answer): nat
    requires start < |alloc|
  {
    start + if alloc[start] then a.n else a.m
  }

  /** The length that is to be widened. */
  function Asked(chain: Chain, a: Answer): nat {
    if chain.Outside? || a.m == 0 then a.n else a.m
  }

  /** Where the widened range ends. */
  function WideEnd(size: nat, align: nat, start: nat, n: nat): nat
    requires align > 0
  {
    Min(BlockEnd(start + n, align), size)
  }

  /** What a round comes to.  `AssertionFails`: part of the widened range is allocated.  `Overruns`: it does not fit the
      buffers. */
  datatype Outcome = Done | AssertionFails | Overruns | IoError

  ghost function RoundOutcome(alloc: seq<bool>, align: nat, chain: Chain, start: nat, a: Answer): Outcome
    requires align > 0 && start < |alloc|
  {
    if Skips(alloc, chain, start, a) then Done else CopyOutcome(alloc, align, start, Asked(chain, a))
  }

  /** What it comes to if `n` bytes from `start` on are to be copied. */
  ghost function CopyOutcome(alloc: seq<bool>, align: nat, start: nat, n: nat): Outcome
    requires align > 0
  {
    var lo, hi := BlockStart(start, align), WideEnd(|alloc|, align, start, n);
    if !Free(alloc, lo, hi) then AssertionFails else if hi - lo > IO_BUF_SIZE then Overruns else Done
  }

  function RoundNext(alloc: seq<bool>, align: nat, chain: Chain, start: nat, a: Answer): nat
    requires align > 0 && start < |alloc|
  {
    if Skips(alloc, chain, start, a) then SkipTo(alloc, start, a) else WideEnd(|alloc|, align, start, Asked(chain, a))
  }

  lemma RoundAdvances(alloc: seq<bool>, before: seq<Byte>, after: seq<Byte>, align: nat, chain: Chain, start: nat, a: Answer)
    requires align > 0 && start < |alloc| && AnswerOk(alloc, before, after, chain, start, a)
    ensures start < RoundNext(alloc, align, chain, start, a) <= |alloc|
    ensures 0 < Asked(chain, a) <= a.n
  {
  }

  /** What the whole loop comes to, from `start` on, if there are no I/O errors. */
  ghost function RunFrom(alloc: seq<bool>, before: seq<Byte>, after: seq<Byte>, align: nat, chain: Chain, ans: nat -> Answer,
                         start: nat): Outcome
    requires align > 0 && AnswersOk(alloc, before, after, chain, ans)
    decreases |alloc| - start
  {
    if start >= |alloc| then Done
    else
      RoundAdvances(alloc, before, after, align, chain, start, ans(start));
      var r := RoundOutcome(alloc, align, chain, start, ans(start));
      if r.Done? then
        RunFrom(alloc, before, after, align, chain, ans, RoundNext(alloc, align, chain, start, ans(start)))
      else r
  }

  /** Above `w`, where the last write ended, the overlay is as it was. */
  ghost predicate AsBefore(alloc0: seq<bool>, alloc: seq<bool>, align: nat, w: nat)
    requires align > 0
  {
    |alloc| == |alloc0| && (w % align == 0 || w == |alloc0|) && forall k: nat | w <= k < |alloc0| :: alloc[k] == alloc0[k]
  }

  /** The body of the loop. */
  method RebaseStep(o: Overlay, before: seq<Byte>, after: seq<Byte>, start: nat, align: nat, chain: Chain, a: Answer,
                    errors: bool, ghost contents: seq<Byte>, ghost from: nat, ghost alloc0: seq<bool>, ghost w: nat)
    returns (r: Outcome, next: nat, ghost w': nat)
    requires align > 0 && start < |contents| == |alloc0| && Shows(o.disk, before, contents)
    requires from <= |o.history| && NoHarm(o.history, from, before, contents)
    requires w <= start && AsBefore(alloc0, o.disk.alloc, align, w) && AnswerOk(alloc0, before, after, chain, start, a)
    modifies o
    ensures r == RoundOutcome(alloc0, align, chain, start, a) || (errors && r.IoError?)
    ensures r.Done? ==> next == RoundNext(alloc0, align, chain, start, a) && start < next <= |contents|
    ensures r.Done? ==> Covered(o.disk.alloc, before, after, start, next)
    ensures r.Done? ==> w' <= next && AsBefore(alloc0, o.disk.alloc, align, w')
    ensures Shows(o.disk, before, contents) && Grown(old(o.disk).alloc, o.disk.alloc, align)
    ensures Sparing(old(o.disk).alloc, o.disk.alloc, before, after, align)
    ensures from <= |o.history| && NoHarm(o.history, from, before, contents)
    ensures r.AssertionFails? || r.Overruns? ==> o.disk == old(o.disk)
    ensures r.Done? && BlockUniform(old(o.disk).alloc, align) ==> BlockUniform(o.disk.alloc, align)
  {
    hide Shows, NoHarm, BlockUniform, BlockFree, Sparing;
    SparingStart(o.disk.alloc, before, after, align);
    ShowsSize(o.disk, before, contents);
    RoundAdvances(alloc0, before, after, align, chain, start, a);
    next, w' := start, w;
    if errors {
      var fails: bool := *;
      if fails {
        return IoError, next, w';
      }
    }
    assert o.disk.alloc[start] == alloc0[start];
    if o.disk.alloc[start] {
      return Done, start + a.n, w;
    }
    var n := a.n;
    if !chain.Outside? {
      n := a.m;
      if !a.above && n > 0 {
        return Done, start + n, w;
      }
      if n == 0 {
        n := a.n;
      }
    }
    assert n == Asked(chain, a);
    r, next := CopyRange(o, before, after, start, n, align, errors, contents, from, alloc0, w);
    w' := next;
  }

  /** The rest of it: `n` bytes from `start` on are widened to block boundaries and copied. */
  method CopyRange(o: Overlay, before: seq<Byte>, after: seq<Byte>, start: nat, n: nat, align: nat, errors: bool,
                   ghost contents: seq<Byte>, ghost from: nat, ghost alloc0: seq<bool>, ghost w: nat)
    returns (r: Outcome, next: nat)
    requires align > 0 && 0 < n && start + n <= |contents| == |alloc0| && Shows(o.disk, before, contents)
    requires from <= |o.history| && NoHarm(o.history, from, before, contents)
    requires w <= start && AsBefore(alloc0, o.disk.alloc, align, w)
    modifies o
    ensures next == Min(BlockEnd(start + n, align), |contents|)
    ensures var lo := BlockStart(start, align);
            r == (if !Free(alloc0, lo, next) then AssertionFails else if next - lo > IO_BUF_SIZE then Overruns else Done) ||
            (errors && r.IoError?)
    ensures r.Done? ==> Covered(o.disk.alloc, before, after, start, next) && AsBefore(alloc0, o.disk.alloc, align, next)
    ensures Shows(o.disk, before, contents) && Grown(old(o.disk).alloc, o.disk.alloc, align)
    ensures Sparing(old(o.disk).alloc, o.disk.alloc, before, after, align)
    ensures from <= |o.history| && NoHarm(o.history, from, before, contents)
    ensures r.AssertionFails? || r.Overruns? ==> o.disk == old(o.disk)
    ensures r.Done? && BlockUniform(old(o.disk).alloc, align) ==> BlockUniform(o.disk.alloc, align)
  {
    hide Shows, NoHarm, BlockUniform, BlockFree, Sparing;
    SparingStart(o.disk.alloc, before, after, align);
    ShowsSize(o.disk, before, contents);
    var size := |o.disk.alloc|;
    var offset := BlockStart(start, align);
    var len := Min(BlockEnd(start + n, align) - offset, size - offset);
    next := offset + len;
    OneSide(w, start, align);
    assert forall k | offset <= k < next :: o.disk.alloc[k] == alloc0[k];
    if exists k :: offset <= k < offset + len && o.disk.alloc[k] {
      r := AssertionFails;
    } else if len > IO_BUF_SIZE {
      r := Overruns;
    } else {
      BlocksInside(o.disk.alloc, align, offset, next);
      var ok := CopyDifferences(o, before, after, offset, len, align, errors, contents, from);
      r := if ok then Done else IoError;
    }
  }

  /** The copying part of img_rebase.  After every single write, also one that fails, the overlay shows its old contents over
      the old backing file, and at the end it shows them over the new one as well. */
  method Rebase(o: Overlay, before: seq<Byte>, after: seq<Byte>, align: nat, chain: Chain, ans: nat -> Answer, errors: bool,
                ghost contents: seq<Byte>)
    returns (r: Outcome)
    requires align > 0 && Shows(o.disk, before, contents) && AnswersOk(o.disk.alloc, before, after, chain, ans)
    modifies o
    ensures |old(o.history)| <= |o.history| && NoHarm(o.history, |old(o.history)|, before, contents)
    ensures Shows(o.disk, before, contents)
    ensures r.Done? ==> Shows(o.disk, after, contents)
    ensures Sparing(old(o.disk).alloc, o.disk.alloc, before, after, align)
    ensures r == RunFrom(old(o.disk).alloc, before, after, align, chain, ans, 0) || (errors && r.IoError?)
    ensures r.Done? ==> Tidy(old(o.disk).alloc, align, 0, chain, before, after)
    ensures chain.Outside? && r.Done? ==> BlockUniform(old(o.disk).alloc, align)
    ensures chain.Same? || BlockUniform(old(o.disk).alloc, align) ==> !r.AssertionFails?
  {
    ghost var from := |o.history|;
    ghost var alloc0 := o.disk.alloc;
    RunConditions(alloc0, before, after, align, chain, ans);
    hide NoHarm, BlockUniform, BlockFree, Shows, RoundOutcome, RoundNext, AnswerOk, Tidy, Sparing;
    SparingStart(alloc0, before, after, align);
    ghost var w: nat := 0;
    NoHarmYet(o.history, before, contents);
    ShowsSize(o.disk, before, contents);
    var offset := 0;
    while offset < |o.disk.alloc|
      invariant 0 <= offset <= |contents| == |alloc0| && Shows(o.disk, before, contents)
      invariant from <= |o.history| && NoHarm(o.history, from, before, contents)
      invariant w <= offset && AsBefore(alloc0, o.disk.alloc, align, w)
      invariant Covered(o.disk.alloc, before, after, 0, offset) && Sparing(alloc0, o.disk.alloc, before, after, align)
      invariant RunFrom(alloc0, before, after, align, chain, ans, offset) ==
                RunFrom(alloc0, before, after, align, chain, ans, 0)
      decreases |contents| - offset
    {
      ghost var alloc1 := o.disk.alloc;
      var next;
      r, next, w := RebaseStep(o, before, after, offset, align, chain, ans(offset), errors, contents, from, alloc0, w);
      ShowsSize(o.disk, before, contents);
      SparingTwice(alloc0, alloc1, o.disk.alloc, before, after, align);
      if !r.Done? {
        return;
      }
      CoveredGrows(alloc1, o.disk.alloc, align, before, after, offset, next);
      offset := next;
    }
    CoveredShows(o.disk, before, after, contents);
    return Done;
  }

  lemma CoveredGrows(a: seq<bool>, b: seq<bool>, align: nat, before: seq<Byte>, after: seq<Byte>, lo: nat, hi: nat)
    requires align > 0 && Grown(a, b, align)
    requires Covered(a, before, after, 0, lo) && Covered(b, before, after, lo, hi)
    ensures Covered(b, before, after, 0, hi)
  {
  }

  lemma NoHarmYet(history: seq<Disk>, before: seq<Byte>, contents: seq<Byte>)
    ensures NoHarm(history, |history|, before, contents)
  {
  }

  lemma CoveredShows(d: Disk, before: seq<Byte>, after: seq<Byte>, contents: seq<Byte>)
    requires Shows(d, before, contents) && Covered(d.alloc, before, after, 0, |contents|)
    ensures Shows(d, after, contents)
  {
    forall k | 0 <= k < |contents| ensures Read(d, after, k) == contents[k] {
      assert Read(d, before, k) == contents[k];
    }
  }

  // ----------------------------------------------- when the assertion holds

  /** Nothing need be done about the byte: the new backing file is in the old chain, and both read the same. */
  predicate Spared(chain: Chain, before: seq<Byte>, after: seq<Byte>, k: nat) {
    ByteAt(before, k) == ByteAt(after, k) && (chain.Same? || (chain.Below? && k < |before|))
  }

  /** The block of byte `k`, as far as it is inside the image, fits the buffers. */
  predicate BlockFits(size: nat, align: nat, k: nat)
    requires align > 0
  {
    Min(BlockStart(k, align) + align, size) - BlockStart(k, align) <= IO_BUF_SIZE
  }

  /** The byte does not stop the loop: it is allocated, or spared, or in a free block that fits the buffers. */
  ghost predicate Passable(alloc: seq<bool>, align: nat, chain: Chain, before: seq<Byte>, after: seq<Byte>, k: nat)
    requires align > 0 && k < |alloc|
  {
    alloc[k] || Spared(chain, before, after, k) || (BlockFree(alloc, align, k) && BlockFits(|alloc|, align, k))
  }

  /** From `lo` on every byte can be passed. */
  ghost predicate Tidy(alloc: seq<bool>, align: nat, lo: nat, chain: Chain, before: seq<Byte>, after: seq<Byte>)
    requires align > 0
  {
    forall k: nat | lo <= k < |alloc| :: Passable(alloc, align, chain, before, after, k)
  }

  lemma TidyIsUniform(alloc: seq<bool>, align: nat, before: seq<Byte>, after: seq<Byte>)
    requires align > 0
    ensures Tidy(alloc, align, 0, Outside, before, after) <==>
            BlockUniform(alloc, align) && forall k: nat | k < |alloc| && !alloc[k] :: BlockFits(|alloc|, align, k)
  {
    if Tidy(alloc, align, 0, Outside, before, after) {
      forall k: nat | k < |alloc| ensures alloc[k] == alloc[BlockStart(k, align)] {
        var s := BlockStart(k, align);
        SameBlock(s, k, align);
        assert Passable(alloc, align, Outside, before, after, k) && Passable(alloc, align, Outside, before, after, s);
      }
      forall k: nat | k < |alloc| && !alloc[k] ensures BlockFits(|alloc|, align, k) {
        assert Passable(alloc, align, Outside, before, after, k);
      }
    }
    UniformFree(alloc, align);
  }

  lemma UniformFree(alloc: seq<bool>, align: nat)
    requires align > 0
    ensures BlockUniform(alloc, align) <==> forall k: nat | k < |alloc| && !alloc[k] :: BlockFree(alloc, align, k)
  {
    if forall k: nat | k < |alloc| && !alloc[k] :: BlockFree(alloc, align, k) {
      forall k: nat | k < |alloc| ensures alloc[k] == alloc[BlockStart(k, align)] {
        var s := BlockStart(k, align);
        SameBlock(s, k, align);
        assert alloc[k] || BlockFree(alloc, align, k);
        assert alloc[s] || BlockFree(alloc, align, s);
      }
    }
    if BlockUniform(alloc, align) {
      forall k: nat | k < |alloc| && !alloc[k] ensures BlockFree(alloc, align, k) {
        forall j: nat | BlockStart(k, align) <= j < BlockStart(k, align) + align && j < |alloc| ensures !alloc[j] {
          SameBlock(j, k, align);
          assert alloc[j] == alloc[BlockStart(j, align)] && alloc[k] == alloc[BlockStart(k, align)];
        }
      }
    }
  }

  /** A round that is done has found its bytes in order. */
  lemma RoundTidy(alloc: seq<bool>, before: seq<Byte>, after: seq<Byte>, align: nat, chain: Chain, start: nat, a: Answer)
    requires align > 0 && start < |alloc| && AnswerOk(alloc, before, after, chain, start, a)
    requires RoundOutcome(alloc, align, chain, start, a).Done?
    ensures forall k: nat | start <= k < RoundNext(alloc, align, chain, start, a) && k < |alloc| ::
              Passable(alloc, align, chain, before, after, k)
  {
    hide BlockFree;
    if !Skips(alloc, chain, start, a) {
      var lo, hi := BlockStart(start, align), WideEnd(|alloc|, align, start, Asked(chain, a));
      BlocksInside(alloc, align, lo, hi);
      forall k: nat | start <= k < hi ensures BlockFits(|alloc|, align, k) {
        OneSide(lo, k, align);
        if hi % align == 0 {
          MultiplesApart(BlockStart(k, align), hi, align);
        }
      }
    }
  }

  lemma {:induction false} DoneTidy(alloc: seq<bool>, before: seq<Byte>, after: seq<Byte>, align: nat, chain: Chain,
                                    ans: nat -> Answer, start: nat)
    requires align > 0 && AnswersOk(alloc, before, after, chain, ans)
    requires RunFrom(alloc, before, after, align, chain, ans, start).Done?
    ensures Tidy(alloc, align, start, chain, before, after)
    decreases |alloc| - start
  {
    hide Passable, AnswerOk, RoundOutcome, RoundNext;
    if start < |alloc| {
      RoundAdvances(alloc, before, after, align, chain, start, ans(start));
      RoundTidy(alloc, before, after, align, chain, start, ans(start));
      DoneTidy(alloc, before, after, align, chain, ans, RoundNext(alloc, align, chain, start, ans(start)));
    }
  }

  /** On a uniform overlay, or if the backing file stays the same, the assertion holds. */
  lemma {:induction false} UniformHolds(alloc: seq<bool>, before: seq<Byte>, after: seq<Byte>, align: nat, chain: Chain,
                                        ans: nat -> Answer, start: nat)
    requires align > 0 && AnswersOk(alloc, before, after, chain, ans) && (chain.Same? || BlockUniform(alloc, align))
    ensures !RunFrom(alloc, before, after, align, chain, ans, start).AssertionFails?
    decreases |alloc| - start
  {
    hide BlockUniform;
    if start < |alloc| {
      var a := ans(start);
      assert AnswerOk(alloc, before, after, chain, start, a);
      RoundAdvances(alloc, before, after, align, chain, start, a);
      if !Skips(alloc, chain, start, a) {
        WidenFree(alloc, align, start, start + Asked(chain, a));
      }
      hide AnswerOk, RoundNext;
      UniformHolds(alloc, before, after, align, chain, ans, RoundNext(alloc, align, chain, start, a));
    }
  }

  lemma RunConditions(alloc: seq<bool>, before: seq<Byte>, after: seq<Byte>, align: nat, chain: Chain, ans: nat -> Answer)
    requires align > 0 && AnswersOk(alloc, before, after, chain, ans)
    ensures var r := RunFrom(alloc, before, after, align, chain, ans, 0);
            && (r.Done? ==> Tidy(alloc, align, 0, chain, before, after) && (chain.Outside? ==> BlockUniform(alloc, align)))
            && (chain.Same? || BlockUniform(alloc, align) ==> !r.AssertionFails?)
  {
    hide RunFrom, Tidy, BlockUniform;
    if RunFrom(alloc, before, after, align, chain, ans, 0).Done? {
      DoneTidy(alloc, before, after, align, chain, ans, 0);
      TidyIsUniform(alloc, align, before, after);
    }
    if chain.Same? || BlockUniform(alloc, align) {
      UniformHolds(alloc, before, after, align, chain, ans, 0);
    }
  }
}
