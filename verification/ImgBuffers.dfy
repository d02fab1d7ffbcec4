/**
  Buffers of qemu/qemu-img.c: finding zeroes and differences.
 */
module ImgBuffers {
  type Byte = x: int | 0 <= x < 256

  const SECTOR := 512
  const IO_BUF_SIZE := 2 * 1024 * 1024

  function Min(a: int, b: int): int {
    if a < b then a else b
  }

  function Max(a: int, b: int): int {
    if a < b then b else a
  }

  predicate AllZero(buf: seq<Byte>) {
    forall k | 0 <= k < |buf| :: buf[k] == 0
  }

  /** find_nonzero: the first sector boundary whose sector, possibly a short one at the end, is not all zero, or -1. */
  method FindNonzero(buf: seq<Byte>) returns (r: int)
    ensures r == -1 <==> AllZero(buf)
    ensures r != -1 ==> 0 <= r < |buf| && r % SECTOR == 0 && AllZero(buf[..r]) && !AllZero(buf[r..Min(r + SECTOR, |buf|)])
  {
    var n := |buf|;
    var end := n - n % SECTOR;
    var i := 0;
    while i < end
      invariant 0 <= i <= end && i % SECTOR == 0 && AllZero(buf[..i])
    {
      if !AllZero(buf[i..i + SECTOR]) {
        NotZeroPart(buf, i, i + SECTOR);
        return i;
      }
      ZeroStep(buf, i, i + SECTOR);
      i := i + SECTOR;
    }
    if i < n && !AllZero(buf[i..]) {
      assert buf[i..] == buf[i..n];
      NotZeroPart(buf, i, n);
      return i;
    }
    assert buf == buf[..i] + buf[i..];
    return -1;
  }

  lemma ZeroStep(buf: seq<Byte>, i: nat, j: nat)
    requires i <= j <= |buf| && AllZero(buf[..i]) && AllZero(buf[i..j])
    ensures AllZero(buf[..j])
  {
    assert buf[..j] == buf[..i] + buf[i..j];
  }

  lemma NotZeroPart(buf: seq<Byte>, i: nat, j: nat)
    requires i <= j <= |buf| && !AllZero(buf[i..j])
    ensures !AllZero(buf)
  {
    var k :| 0 <= k < j - i && buf[i..j][k] != 0;
    assert buf[i + k] != 0;
  }

  // ------------------------------------------------------ compare_buffers

  /** The buffers differ in the chunk that starts at `i`. */
  predicate ChunkDiffers(a: seq<Byte>, b: seq<Byte>, i: nat, size: nat)
    requires |a| == |b| && i <= |a|
  {
    a[i..Min(i + size, |a|)] != b[i..Min(i + size, |a|)]
  }

  /** compare_buffers: the longest prefix of whole chunks that all match or all differ, as the first one does. */
  method CompareBuffers(a: seq<Byte>, b: seq<Byte>, chunk: nat) returns (differ: bool, pnum: nat)
    requires |a| == |b| && |a| > 0
    ensures 0 < pnum <= |a| && (pnum == |a| || pnum % ChunkSize(chunk) == 0)
    ensures differ <==> ChunkDiffers(a, b, 0, ChunkSize(chunk))
    ensures forall i: nat | i < pnum && i % ChunkSize(chunk) == 0 :: ChunkDiffers(a, b, i, ChunkSize(chunk)) == differ
    ensures pnum < |a| ==> ChunkDiffers(a, b, pnum, ChunkSize(chunk)) != differ
    ensures !differ ==> a[..pnum] == b[..pnum]
  {
    var size := ChunkSize(chunk);
    var i := Min(|a|, size);
    differ := a[0..i] != b[0..i];
    OnlyZero(i, size);
    while i < |a|
      invariant 0 < i <= |a| && (i == |a| || i % size == 0)
      invariant forall j: nat | j < i && j % size == 0 :: ChunkDiffers(a, b, j, size) == differ
      invariant !differ ==> a[..i] == b[..i]
    {
      var len := Min(|a| - i, size);
      assert Min(i + size, |a|) == i + len;
      if (a[i..i + len] != b[i..i + len]) != differ {
        break;
      }
      assert a[..i + len] == a[..i] + a[i..i + len] && b[..i + len] == b[..i] + b[i..i + len];
      NextMultiple(i, len, size);
      i := i + len;
    }
    pnum := i;
  }

  function ChunkSize(chunk: nat): (r: nat)
    ensures r > 0
  {
    if chunk == 0 then SECTOR else chunk
  }

  lemma OnlyZero(i: nat, size: nat)
    requires 0 < i <= size
    ensures i == size ==> i % size == 0
    ensures forall j: nat | j < i && j % size == 0 :: j == 0
  {
    forall j: nat | j < i && j % size == 0 ensures j == 0 {
      SmallMod(j, size);
    }
  }

  lemma SmallMod(j: nat, size: nat)
    requires j < size
    ensures j % size == j
  {
  }

  lemma NextMultiple(i: nat, len: nat, size: nat)
    requires size > 0 && i % size == 0 && 0 < len <= size
    ensures len == size ==> (i + len) % size == 0
    ensures forall j: nat | i <= j < i + len && j % size == 0 :: j == i
  {
    var q := i / size;
    assert i == q * size;
    if len == size {
      assert i + len == (q + 1) * size;
      MultipleMod(q + 1, size);
    }
    forall j: nat | i <= j < i + len && j % size == 0 ensures j == i {
      AddMod(q, size, j - i);
    }
  }

  lemma MultipleMod(q: nat, size: nat)
    requires size > 0
    ensures (q * size) % size == 0
  {
    AddMod(q, size, 0);
  }

  lemma NonzeroProduct(d: int, size: int)
    requires d != 0 && size > 0
    ensures d * size >= size || d * size <= -size
  {
  }

  lemma Distribute(a: int, b: int, size: int)
    ensures (a - b) * size == a * size - b * size
  {
  }

  lemma AddMod(q: nat, size: nat, r: nat)
    requires size > 0 && r < size
    ensures (q * size + r) % size == r && (q * size + r) / size == q
  {
    var x := q * size + r;
    var q', r' := x / size, x % size;
    Distribute(q, q', size);
    if q != q' {
      NonzeroProduct(q - q', size);
    }
  }

  // ------------------------------------------------------ sparse sectors

  type Sector = seq<Byte>

  /** The length of the run of sectors that are zero, or not zero, like the first one. */
  ghost predicate IsRun(buf: seq<Sector>, i: nat) {
    && 0 < i <= |buf|
    && (forall k | 0 <= k < i :: AllZero(buf[k]) == AllZero(buf[0]))
    && (i < |buf| ==> AllZero(buf[i]) != AllZero(buf[0]))
  }

  /** is_allocated_sectors.  Sectors that are reported as not allocated are all zero.  A request that does not reach the end
      of the buffer ends on an alignment boundary, less than the alignment away from the end of the run.  A short run of
      zeroes that does not reach a boundary counts as data.  The source masks with alignment - 1, where the alignment is a
      power of two. */
  method IsAllocatedSectors(buf: seq<Sector>, sectorNum: nat, alignment: nat) returns (data: bool, pnum: nat)
    requires alignment > 0
    ensures |buf| == 0 ==> !data && pnum == 0
    ensures |buf| > 0 ==> 0 < pnum <= |buf|
    ensures !data ==> forall k | 0 <= k < pnum :: AllZero(buf[k])
    ensures pnum == |buf| || Aligned(sectorNum + pnum, alignment)
    ensures forall i: nat | IsRun(buf, i) ::
              && (data <==> !AllZero(buf[0]) || (i < |buf| && 0 < i <= Tail(sectorNum + i, alignment)))
              && (if data then i <= pnum < i + alignment else i - alignment < pnum <= i)
              && (i == |buf| ==> pnum == i)
              && (data ==> forall y: nat | sectorNum + i <= y < sectorNum + pnum :: !Aligned(y, alignment))
              && (!data && i < |buf| ==> forall y: nat | sectorNum + pnum < y <= sectorNum + i :: !Aligned(y, alignment))
  {
    hide Aligned;
    if |buf| == 0 {
      return false, 0;
    }
    var zero := AllZero(buf[0]);
    var i := RunLength(buf);
    RunUnique(buf, i);
    if i == |buf| {
      return !zero, i;
    }
    var tail := Tail(sectorNum + i, alignment);
    NoBoundary(sectorNum + i, alignment);
    hide Tail;
    if tail != 0 {
      if zero && i <= tail {
        zero := false;
      }
      if !zero {
        i := Min(i + alignment - tail, |buf|);
      } else {
        i := i - tail;
      }
    }
    return !zero, i;
  }

  /** The loop of is_allocated_sectors. */
  method RunLength(buf: seq<Sector>) returns (i: nat)
    requires |buf| > 0
    ensures IsRun(buf, i)
  {
    var zero := AllZero(buf[0]);
    i := 1;
    while i < |buf|
      invariant 0 < i <= |buf| && forall k | 0 <= k < i :: AllZero(buf[k]) == zero
    {
      if zero != AllZero(buf[i]) {
        break;
      }
      i := i + 1;
    }
  }

  /** How far `x` lies beyond an alignment boundary. */
  function Tail(x: nat, alignment: nat): (r: nat)
    requires alignment > 0
    ensures r < alignment && r <= x
    ensures Aligned(x - r, alignment) && Aligned(x + alignment - r, alignment)
    ensures r == 0 ==> Aligned(x, alignment)
  {
    AlignDown(x, alignment);
    AlignUp(x, alignment);
    x % alignment
  }

  /** There is no boundary between the one at or before `x` and the next one. */
  lemma NoBoundary(x: nat, alignment: nat)
    requires alignment > 0
    ensures var r := Tail(x, alignment); forall y: nat | x - r < y < x - r + alignment :: !Aligned(y, alignment)
  {
    var r := Tail(x, alignment);
    var q := x / alignment;
    assert x - r == q * alignment;
    forall y: nat | x - r < y < x - r + alignment ensures !Aligned(y, alignment) {
      AddMod(q, alignment, y - (x - r));
    }
  }

  predicate Aligned(x: nat, alignment: nat)
    requires alignment > 0
  {
    x % alignment == 0
  }

  lemma SameRun(buf: seq<Sector>, i: nat, j: nat)
    requires IsRun(buf, i) && IsRun(buf, j)
    ensures i == j
  {
  }

  lemma RunUnique(buf: seq<Sector>, i: nat)
    requires IsRun(buf, i)
    ensures forall j: nat | IsRun(buf, j) :: j == i
  {
    forall j: nat | IsRun(buf, j) ensures j == i {
      SameRun(buf, i, j);
    }
  }

  lemma AlignUp(x: nat, a: nat)
    requires a > 0
    ensures (x + a - x % a) % a == 0
  {
    assert x + a - x % a == (x / a + 1) * a;
    MultipleMod(x / a + 1, a);
  }

  lemma AlignDown(x: nat, a: nat)
    requires a > 0
    ensures (x - x % a) % a == 0
  {
    assert x - x % a == (x / a) * a;
    MultipleMod(x / a, a);
  }

  /** A long run of zeroes from `lo` on: `min` sectors and what the alignment can take away at either end. */
  predicate LongRun(buf: seq<Sector>, lo: nat, hi: nat, min: nat, alignment: nat) {
    ZeroRun(buf, lo, hi) && hi - lo >= Min(min, |buf|) + 2 * alignment
  }

  /** What is_allocated_sectors says of the sectors from `at` on when a long run of zeroes starts less than the alignment
      before `at`, or after it: the piece is such a run of zeroes, or it ends before or near the start of the run. */
  lemma PieceNearRun(buf: seq<Sector>, at: nat, i: nat, alignment: nat, tail: nat, data: bool, pnum: nat,
                     min: nat, lo: nat, hi: nat)
    requires at < |buf| && IsRun(buf[at..], i) && tail < alignment
    requires data <==> !AllZero(buf[at]) || (at + i < |buf| && i <= tail)
    requires if data then i <= pnum < i + alignment else i - alignment < pnum <= i
    requires LongRun(buf, lo, hi, min, alignment) && at < lo + alignment
    ensures !data ==> pnum >= Min(min, |buf|) || at + pnum < lo + alignment
    ensures data ==> at + pnum < lo + alignment
  {
    var k := if at < lo then lo else at;
    assert AllZero(buf[at..][k - at]);
  }

  lemma NearRuns(buf: seq<Sector>, at: nat, sectorNum: nat, alignment: nat, data: bool, pnum: nat, min: nat)
    requires alignment > 0 && at < |buf|
    requires forall i: nat | IsRun(buf[at..], i) ::
               && (data <==> !AllZero(buf[at..][0]) || (i < |buf[at..]| && 0 < i <= Tail(sectorNum + at + i, alignment)))
               && (if data then i <= pnum < i + alignment else i - alignment < pnum <= i)
    requires forall lo: nat, hi: nat | LongRun(buf, lo, hi, min, alignment) :: at < lo + alignment
    ensures forall lo: nat, hi: nat | LongRun(buf, lo, hi, min, alignment) ::
              at + pnum < lo + alignment || (!data && pnum >= Min(min, |buf|))
  {
    var i := RunExists(buf[at..]);
    var tail := Tail(sectorNum + at + i, alignment);
    hide Tail, IsRun, LongRun;
    forall lo: nat, hi: nat | LongRun(buf, lo, hi, min, alignment)
      ensures at + pnum < lo + alignment || (!data && pnum >= Min(min, |buf|))
    {
      PieceNearRun(buf, at, i, alignment, tail, data, pnum, min, lo, hi);
    }
  }

  lemma {:induction false} RunExists(buf: seq<Sector>) returns (i: nat)
    requires |buf| > 0
    ensures IsRun(buf, i)
  {
    i := 1;
    while i < |buf| && AllZero(buf[i]) == AllZero(buf[0])
      invariant 0 < i <= |buf| && forall k | 0 <= k < i :: AllZero(buf[k]) == AllZero(buf[0])
    {
      i := i + 1;
    }
  }

  /** is_allocated_sectors_min: like the above, but short runs of zeroes between data are taken for data.  What follows the
      data is a run of zeroes that is at least `min` sectors long or reaches the end, and no long run of zeroes is taken for
      data. */
  method IsAllocatedSectorsMin(buf: seq<Sector>, min: nat, sectorNum: nat, alignment: nat)
    returns (data: bool, pnum: nat)
    requires alignment > 0
    ensures |buf| == 0 ==> !data && pnum == 0
    ensures |buf| > 0 ==> 0 < pnum <= |buf|
    ensures !data ==> forall k | 0 <= k < pnum :: AllZero(buf[k])
    ensures data && pnum < |buf| ==> EnoughZeroes(buf, pnum, min)
    ensures forall i: nat | IsRun(buf, i) ::
              && (data <==> !AllZero(buf[0]) || (i < |buf| && 0 < i <= Tail(sectorNum + i, alignment)))
              && (if data then i <= pnum else i - alignment < pnum)
    ensures data ==> forall lo: nat, hi: nat | LongRun(buf, lo, hi, min, alignment) :: pnum < lo + alignment
  {
    data, pnum := IsAllocatedSectors(buf, sectorNum, alignment);
    if !data {
      return;
    }
    ghost var first := pnum;
    var used := pnum;
    var checked := pnum;
    NearRuns(buf, 0, sectorNum, alignment, data, pnum, min);
    while checked < |buf|
      invariant 0 < used <= checked <= |buf|
      invariant first <= used
      invariant forall k | used <= k < checked :: AllZero(buf[k])
      invariant forall lo: nat, hi: nat | LongRun(buf, lo, hi, min, alignment) :: checked < lo + alignment
    {
      var more;
      more, pnum := IsAllocatedSectors(buf[checked..], sectorNum + checked, alignment);
      NearRuns(buf, checked, sectorNum, alignment, more, pnum, min);
      if !more {
        forall k | checked <= k < checked + pnum ensures AllZero(buf[k]) {
          assert buf[k] == buf[checked..][k - checked];
        }
      }
      checked := checked + pnum;
      if more {
        used := checked;
      } else if pnum >= Min(min, |buf|) {
        break;
      }
    }
    assert used < |buf| ==> ZeroRun(buf, used, checked);
    return true, used;
  }

  predicate ZeroRun(buf: seq<Sector>, lo: nat, hi: nat) {
    lo < hi <= |buf| && forall k | lo <= k < hi :: AllZero(buf[k])
  }

  ghost predicate EnoughZeroes(buf: seq<Sector>, lo: nat, min: nat) {
    exists hi: nat :: ZeroRun(buf, lo, hi) && (hi == |buf| || hi - lo >= Min(min, |buf|))
  }
}
