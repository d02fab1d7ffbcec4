/**
  The copying of one chunk by `qemu-img convert` (qemu/qemu-img.c): how far the next
  chunk reaches, what is known about it, how it is read from the concatenated sources
  and how it is written.  Images are sequences of sectors.
 */
module ImgConvert {
  import opened Wrappers
  import opened ImgBuffers

  datatype ChunkStatus = BlkData | BlkZero | BlkBacking

  /** The parts of ImgConvertState that stay the same.  `backingSectors` is negative if unknown.  `unreadable` are the sectors
      that cannot always be read on their own. */
  datatype Config = Config(src: seq<seq<Sector>>, srcAlignment: seq<nat>, targetHasBacking: bool, backing: seq<Sector>,
                           backingSectors: int, hasZeroInit: bool, minSparse: nat, alignment: nat, compressed: bool,
                           clusterSectors: nat, bufSectors: nat, salvage: bool, unreadable: set<nat>)

  const REQUEST_MAX_SECTORS := 4194303

  function ZeroSector(): (s: Sector)
    ensures |s| == SECTOR && AllZero(s)
  {
    seq(SECTOR, _ => 0)
  }

  function Flatten(parts: seq<seq<Sector>>): seq<Sector> {
    if parts == [] then [] else parts[0] + Flatten(parts[1..])
  }

  /** What the target is to read as. */
  function Source(c: Config): seq<Sector> {
    Flatten(c.src)
  }

  /** What sector `k` of the target may read as: the source, or zeroes where an unreadable sector was salvaged. */
  predicate Wanted(c: Config, k: nat, v: Sector)
    requires k < |Source(c)|
  {
    v == Source(c)[k] || (c.salvage && k in c.unreadable && v == ZeroSector())
  }

  /** A sector of the target's backing file, which reads as zero beyond its end. */
  function BackingAt(c: Config, k: nat): Sector {
    if k < |c.backing| then c.backing[k] else ZeroSector()
  }

  ghost predicate Valid(c: Config) {
    && |c.srcAlignment| == |c.src| && (forall i | 0 <= i < |c.srcAlignment| :: c.srcAlignment[i] > 0)
    && (forall k | 0 <= k < |Source(c)| :: |Source(c)[k]| == SECTOR)
    && c.alignment > 0 && c.bufSectors > 0
    && (c.compressed ==> c.clusterSectors == c.bufSectors)
    && (c.backingSectors >= 0 ==> c.targetHasBacking && c.backingSectors == |c.backing|)
    && (c.hasZeroInit ==> !c.targetHasBacking)
  }

  lemma ZeroIsZero(s: Sector)
    requires |s| == SECTOR && AllZero(s)
    ensures s == ZeroSector()
  {
  }

  // -------------------------------------------------- the concatenation

  lemma {:induction false} FlattenSplit(parts: seq<seq<Sector>>, i: nat)
    requires i <= |parts|
    ensures Flatten(parts) == Flatten(parts[..i]) + Flatten(parts[i..])
  {
    if i == 0 {
      assert parts[..0] == [] && parts[0..] == parts;
    } else {
      FlattenSplit(parts[1..], i - 1);
      assert parts[..i][1..] == parts[1..][..i - 1] && parts[1..][i - 1..] == parts[i..];
      assert parts[..i][0] == parts[0];
    }
  }

  /** `cur` is the part that holds sector `k`, and `offset` where that part begins. */
  ghost predicate InPart(parts: seq<seq<Sector>>, k: nat, cur: nat, offset: nat) {
    cur < |parts| && offset == |Flatten(parts[..cur])| && offset <= k < offset + |parts[cur]|
  }

  lemma PartRange(parts: seq<seq<Sector>>, k: nat, cur: nat, offset: nat, n: nat)
    requires InPart(parts, k, cur, offset) && k + n <= offset + |parts[cur]|
    ensures k + n <= |Flatten(parts)| && parts[cur][k - offset..k - offset + n] == Flatten(parts)[k..k + n]
  {
    FlattenSplit(parts, cur);
    assert Flatten(parts[cur..]) == parts[cur] + Flatten(parts[cur..][1..]);
  }

  /** convert_select_part */
  method SelectPart(parts: seq<seq<Sector>>, k: nat) returns (cur: nat, offset: nat)
    requires k < |Flatten(parts)|
    ensures InPart(parts, k, cur, offset)
  {
    cur, offset := 0, 0;
    assert parts[..0] == [];
    NotPast(parts, k, 0);
    while k - offset >= |parts[cur]|
      invariant cur < |parts| && offset == |Flatten(parts[..cur])| && offset <= k
      decreases |parts| - cur
    {
      NextPart(parts, cur);
      offset := offset + |parts[cur]|;
      cur := cur + 1;
      NotPast(parts, k, cur);
    }
  }

  lemma NextPart(parts: seq<seq<Sector>>, i: nat)
    requires i < |parts|
    ensures |Flatten(parts[..i + 1])| == |Flatten(parts[..i])| + |parts[i]|
  {
    FlattenSplit(parts[..i + 1], i);
    assert parts[..i + 1][..i] == parts[..i] && parts[..i + 1][i..] == [parts[i]];
    assert Flatten([parts[i]]) == parts[i] + Flatten([parts[i]][1..]);
  }

  lemma NotPast(parts: seq<seq<Sector>>, k: nat, i: nat)
    requires k < |Flatten(parts)| && i <= |parts| && |Flatten(parts[..i])| <= k
    ensures i < |parts|
  {
    assert parts[..|parts|] == parts;
  }

  // ----------------------------------------------------- block status

  /** What is known about the sectors of a chunk. */
  ghost predicate ChunkOk(c: Config, lo: nat, hi: nat, status: ChunkStatus) {
    && hi <= |Source(c)|
    && (status.BlkZero? ==> forall k | lo <= k < hi :: AllZero(Source(c)[k]))
    && (status.BlkBacking? ==> c.targetHasBacking && forall k: nat | lo <= k < hi :: Source(c)[k] == BackingAt(c, k))
  }

  /** The meaning of the flags of bdrv_block_status_above over a range, where the base is the source's own backing file if
      the target has one, with the same contents. */
  predicate FlagsTrue(c: Config, lo: nat, n: nat, zero: bool, data: bool)
    requires lo + n <= |Source(c)|
  {
    && (zero ==> forall k | lo <= k < lo + n :: AllZero(Source(c)[k]))
    && (!zero && !data && c.targetHasBacking ==> forall k: nat | lo <= k < lo + n :: Source(c)[k] == BackingAt(c, k))
  }

  /** bdrv_block_status_above: an error, or any true answer about a range that does not reach beyond the part. */
  method BlockStatus(c: Config, lo: nat, limit: nat, errors: bool) returns (ok: bool, zero: bool, data: bool, n: nat)
    requires 0 < limit && lo + limit <= |Source(c)|
    ensures ok ==> 0 < n <= limit && FlagsTrue(c, lo, n, zero, data)
    ensures !ok ==> errors
  {
    ok := true;
    if errors {
      ok := *;
    }
    zero, data, n := false, true, 1;
    assert FlagsTrue(c, lo, n, zero, data);
    zero, data, n :| 0 < n <= limit && FlagsTrue(c, lo, n, zero, data);
  }

  /** The loop around the query: when salvaging, ask about ever shorter ranges, and take a single sector to be data. */
  method StatusOrSalvage(c: Config, lo: nat, limit: nat, errors: bool) returns (ok: bool, zero: bool, data: bool, n: nat)
    requires 0 < limit && lo + limit <= |Source(c)|
    ensures ok ==> 0 < n <= limit && FlagsTrue(c, lo, n, zero, data)
    ensures !ok ==> errors && !c.salvage
  {
    var len := limit;
    ok, zero, data, n := BlockStatus(c, lo, len, errors);
    while !ok
      invariant 0 < len <= limit && (ok ==> 0 < n <= limit && FlagsTrue(c, lo, n, zero, data)) && (!ok ==> errors)
      decreases !ok, len
    {
      if !c.salvage {
        return;
      }
      if len == 1 {
        ok, zero, data, n := true, false, true, 1;
      } else {
        len := (len + 3) / 4;
        ok, zero, data, n := BlockStatus(c, lo, len, errors);
      }
    }
  }

  class Convert {
    const c: Config
    var status: ChunkStatus
    var nextStatus: nat      // `status` is known up to here
    var sectorNum: nat       // the next sector to be handed out

    /** As convert_do_copy leaves it before the coroutines are created. */
    constructor (c: Config)
      ensures this.c == c && sectorNum == 0 && nextStatus == 0
    {
      this.c, status, nextStatus, sectorNum := c, BlkData, 0, 0;
    }

    /** The status holds from `k` as far as it is known. */
    ghost predicate Known(k: nat)
      reads this
    {
      nextStatus > k ==> ChunkOk(c, k, nextStatus, status)
    }

    /** The part of convert_iteration_sectors that asks for the block status.  What is known ends aligned to the source's
        alignment, unless it is shorter than that. */
    method QueryStatus(k: nat, limit: nat, postBackingZero: bool, errors: bool)
      returns (ok: bool, n: nat, ghost zero: bool, ghost data: bool)
      requires Valid(c) && 0 < limit && k + limit <= |Source(c)|
      requires postBackingZero ==> c.targetHasBacking && k >= |c.backing|
      modifies this`status, this`nextStatus
      ensures ok ==> 0 < n <= limit && nextStatus == k + n && ChunkOk(c, k, nextStatus, status)
      ensures !ok ==> status == old(status) && nextStatus == old(nextStatus) && errors && !c.salvage
      ensures ok ==> FlagsTrue(c, k, n, zero, data)
      ensures ok && zero ==> !status.BlkData? && (status.BlkBacking? <==> postBackingZero)
      ensures ok && !zero ==> !status.BlkZero? && (status.BlkBacking? <==> !data && c.targetHasBacking)
      ensures ok ==> exists cur: nat, offset: nat ::
                InPart(c.src, k, cur, offset) && k + n <= offset + |c.src[cur]| &&
                (n < c.srcAlignment[cur] || (k - offset + n) % c.srcAlignment[cur] == 0)
    {
      var cur, offset := SelectPart(c.src, k);
      PartRange(c.src, k, cur, offset, offset + |c.src[cur]| - k);
      var isZero, isData;
      ok, isZero, isData, n := StatusOrSalvage(c, k, Min(limit, offset + |c.src[cur]| - k), errors);
      zero, data := isZero, isData;
      if !ok {
        return;
      }
      var tail := (k - offset + n) % c.srcAlignment[cur];
      AlignDown(k - offset + n, c.srcAlignment[cur]);
      if n > tail {
        n := n - tail;
      }
      assert InPart(c.src, k, cur, offset);
      if isZero {
        status := if postBackingZero then BlkBacking else BlkZero;
        ZeroSectors(c, k, n);
      } else if isData {
        status := BlkData;
      } else {
        status := if c.targetHasBacking then BlkBacking else BlkData;
      }
      nextStatus := k + n;
    }

    /** convert_iteration_sectors: the next chunk is not empty and its status is true of all of it. */
    method IterationSectors(k: nat, errors: bool) returns (ok: bool, n: nat)
      requires Valid(c) && k < |Source(c)| && Known(k)
      modifies this`status, this`nextStatus
      ensures Known(k) && (ok ==> 0 < n && k + n <= |Source(c)| && ChunkOk(c, k, k + n, status))
      ensures ok && status.BlkData? ==> n <= c.bufSectors
      ensures ok && c.compressed ==> Aligned(n, c.clusterSectors) || k + n == |Source(c)|
      ensures !ok ==> errors && !c.salvage
    {
      hide Valid, Source, InPart, FlagsTrue, Aligned;
      var total := |Source(c)|;
      var postBackingZero := false;
      n := Min(total - k, REQUEST_MAX_SECTORS);
      BackingLength(c);
      if c.backingSectors >= 0 {
        if k >= c.backingSectors {
          postBackingZero := true;
        } else if k + n > c.backingSectors {
          n := c.backingSectors - k;
        }
      }
      if nextStatus <= k {
        ghost var zero, data;
        ok, n, zero, data := QueryStatus(k, n, postBackingZero, errors);
        if !ok {
          return;
        }
      }
      n := Min(n, nextStatus - k);
      if status.BlkData? {
        n := Min(n, c.bufSectors);
      }
      if c.compressed {
        if n < c.clusterSectors {
          n := Min(c.clusterSectors, total - k);
          status := BlkData;
        } else {
          var whole := n - n % c.clusterSectors;
          WholeClusters(n, c.clusterSectors);
          n := whole;
        }
      }
      ok := true;
    }

    /** The part of convert_co_do_copy under the lock: the chunk is the coroutine's own, with what was known of it at the
        time, and the next one begins where it ends. */
    method TakeChunk(errors: bool) returns (ok: bool, k: nat, n: nat, st: ChunkStatus)
      requires Valid(c) && sectorNum < |Source(c)| && Known(sectorNum)
      modifies this
      ensures ok ==> k == old(sectorNum) && 0 < n && sectorNum == k + n <= |Source(c)| && ChunkOk(c, k, k + n, st)
      ensures Known(sectorNum) && (!ok ==> sectorNum == old(sectorNum) && errors && !c.salvage)
      ensures ok && (st.BlkData? || (c.minSparse == 0 && st.BlkZero?)) ==> n <= c.bufSectors
      ensures ok && c.compressed ==> Aligned(n, c.clusterSectors) || k + n == |Source(c)|
    {
      BackingLength(c);
      hide Valid, Aligned;
      k := sectorNum;
      ok, n := IterationSectors(k, errors);
      st := status;
      if !ok {
        return;
      }
      if c.minSparse == 0 && st.BlkZero? {
        n := Min(n, c.bufSectors);
      }
      KnownLater(c, k, k + n, nextStatus, status);
      sectorNum := sectorNum + n;
    }
  }

  lemma ZeroSectors(c: Config, k: nat, n: nat)
    requires Valid(c) && k + n <= |Source(c)| && forall i | k <= i < k + n :: AllZero(Source(c)[i])
    ensures c.targetHasBacking && k >= |c.backing| ==> forall i: nat | k <= i < k + n :: Source(c)[i] == BackingAt(c, i)
  {
    forall i: nat | k <= i < k + n ensures Source(c)[i] == ZeroSector() {
      ZeroIsZero(Source(c)[i]);
    }
  }

  lemma BackingLength(c: Config)
    requires Valid(c)
    ensures c.backingSectors >= 0 ==> c.targetHasBacking && c.backingSectors == |c.backing|
    ensures c.bufSectors > 0 && (c.compressed ==> c.clusterSectors == c.bufSectors && Aligned(c.clusterSectors, c.clusterSectors))
  {
  }

  lemma WholeClusters(n: nat, cluster: nat)
    requires 0 < cluster <= n
    ensures 0 < n - n % cluster <= n && Aligned(n - n % cluster, cluster)
  {
    AlignDown(n, cluster);
  }

  /** The status is still known further on. */
  lemma KnownLater(c: Config, k: nat, k': nat, next: nat, status: ChunkStatus)
    requires k <= k' && (next > k ==> ChunkOk(c, k, next, status))
    ensures next > k' ==> ChunkOk(c, k', next, status)
  {
  }

  // ------------------------------------------------------ read and write

  /** Sectors that may be written from `k` on. */
  ghost predicate AllWanted(c: Config, k: nat, buf: seq<Sector>) {
    k + |buf| <= |Source(c)| && forall i | 0 <= i < |buf| :: Wanted(c, k + i, buf[i])
  }

  /** convert_co_read: an error, or the sectors of the concatenation.  When salvaging, a failed read is repeated sector by
      sector, and a sector that cannot be read is taken to be zero. */
  method CoRead(c: Config, k: nat, n: nat, errors: bool) returns (ok: bool, buf: seq<Sector>)
    requires Valid(c) && k + n <= |Source(c)| && n <= c.bufSectors
    ensures ok ==> |buf| == n && AllWanted(c, k, buf)
    ensures ok && !(c.salvage && errors) ==> AllExact(c, k, buf)
    ensures !ok ==> errors && !c.salvage
  {
    hide Valid, AllExact;
    ExactStart(c, k);
    buf := [];
    var done, single := 0, 0;
    while done < n
      invariant 0 <= done == |buf| <= n && AllWanted(c, k, buf)
      invariant !errors ==> AllExact(c, k, buf)
      decreases n - done, if PartOffset(c.src, k + done) < single then 0 else 1
    {
      var cur, offset := SelectPart(c.src, k + done);
      InPartOffset(c.src, k + done, cur, offset);
      var m := Min(n - done, |c.src[cur]| - (k + done - offset));
      if single > k + done - offset {
        m := 1;
      }
      ok := true;
      if errors {
        ok := *;
      }
      if !ok && !c.salvage {
        return;
      }
      if m == 1 && c.salvage && k + done !in c.unreadable {
        ok := true;
      }
      if !ok && m > 1 {
        single := k + done - offset + m;
        continue;
      }
      PartRange(c.src, k + done, cur, offset, m);
      var got := if ok then c.src[cur][k + done - offset..k + done - offset + m] else [ZeroSector()];
      MoreWanted(c, k, buf, got, ok);
      buf := buf + got;
      done := done + m;
    }
    ok := true;
    WantedExact(c, k, buf);
  }

  /** The sectors are those of the source. */
  ghost predicate AllExact(c: Config, k: nat, buf: seq<Sector>) {
    k + |buf| <= |Source(c)| && buf == Source(c)[k..k + |buf|]
  }

  lemma ExactStart(c: Config, k: nat)
    requires k <= |Source(c)|
    ensures AllExact(c, k, [])
  {
  }

  lemma WantedExact(c: Config, k: nat, buf: seq<Sector>)
    requires AllWanted(c, k, buf)
    ensures !c.salvage ==> AllExact(c, k, buf)
  {
    if !c.salvage {
      forall i | 0 <= i < |buf| ensures buf[i] == Source(c)[k..k + |buf|][i] {
        assert Wanted(c, k + i, buf[i]);
      }
    }
  }

  /** Where sector `k` is in its part. */
  ghost function PartOffset(parts: seq<seq<Sector>>, k: nat): nat {
    if parts == [] || k < |parts[0]| then k else PartOffset(parts[1..], k - |parts[0]|)
  }

  lemma {:induction false} InPartOffset(parts: seq<seq<Sector>>, k: nat, cur: nat, offset: nat)
    requires InPart(parts, k, cur, offset)
    ensures PartOffset(parts, k) == k - offset
  {
    if cur == 0 {
      assert parts[..0] == [];
    } else {
      assert parts[..cur] == [parts[0]] + parts[1..][..cur - 1];
      assert parts[..cur][1..] == parts[1..][..cur - 1];
      InPartOffset(parts[1..], k - |parts[0]|, cur - 1, offset - |parts[0]|);
    }
  }

  lemma MoreWanted(c: Config, k: nat, buf: seq<Sector>, got: seq<Sector>, ok: bool)
    requires AllWanted(c, k, buf) && k + |buf| + |got| <= |Source(c)|
    requires if ok then got == Source(c)[k + |buf|..k + |buf| + |got|]
             else c.salvage && k + |buf| in c.unreadable && got == [ZeroSector()]
    ensures AllWanted(c, k, buf + got) && (ok && AllExact(c, k, buf) ==> AllExact(c, k, buf + got))
  {
    assert ok && AllExact(c, k, buf) ==> buf + got == Source(c)[k..k + |buf + got|];
    forall i | 0 <= i < |buf + got| ensures Wanted(c, k + i, (buf + got)[i]) {
    }
  }

  /** The target: the sectors that have been written. */
  type Cells = seq<Option<Sector>>

  /** What a sector of the target reads as, if that is known. */
  function Reads(c: Config, cells: Cells, k: nat): Option<Sector>
    requires k < |cells|
  {
    if cells[k].Some? then cells[k]
    else if c.targetHasBacking then Some(BackingAt(c, k))
    else if c.hasZeroInit then Some(ZeroSector())
    else None
  }

  /** With -S 0 and without a backing file every sector is to be written. */
  predicate Full(c: Config) {
    c.minSparse == 0 && !c.targetHasBacking
  }

  /** Between `lo` and `hi` the target reads as it should, and is allocated if it is to be. */
  ghost predicate Copied(c: Config, cells: Cells, lo: nat, hi: nat) {
    && hi <= |cells| == |Source(c)|
    && (forall k: nat | lo <= k < hi :: Reads(c, cells, k).Some? && Wanted(c, k, Reads(c, cells, k).value))
    && (Full(c) ==> forall k: nat | lo <= k < hi :: cells[k].Some?)
  }

  /** Between `lo` and `hi` nothing has been written. */
  ghost predicate Untouched(cells: Cells, lo: nat, hi: nat) {
    hi <= |cells| && forall k | lo <= k < hi :: cells[k].None?
  }

  /** Between `lo` and `hi` nothing has been written but what was to be written. */
  ghost predicate Unspoiled(c: Config, cells: Cells, lo: nat, hi: nat) {
    hi <= |cells| == |Source(c)| && forall k: nat | lo <= k < hi && cells[k].Some? :: Wanted(c, k, cells[k].value)
  }

  ghost predicate SameOutside(a: Cells, b: Cells, lo: nat, hi: nat) {
    |a| == |b| && forall k | 0 <= k < |a| && !(lo <= k < hi) :: a[k] == b[k]
  }

  class Target {
    var cells: Cells

    /** A new image of `n` sectors. */
    constructor (n: nat)
      ensures |cells| == n && Untouched(cells, 0, n)
    {
      cells := seq(n, _ => None);
    }

    /** blk_co_pwrite and blk_co_pwrite_zeroes, which may fail half way. */
    method Write(k: nat, buf: seq<Sector>, errors: bool) returns (ok: bool)
      requires k + |buf| <= |cells|
      modifies this
      ensures SameOutside(old(cells), cells, k, k + |buf|)
      ensures forall i | k <= i < k + |buf| :: cells[i] == Some(buf[i - k]) || (!ok && cells[i] == old(cells)[i])
      ensures !ok ==> errors
    {
      ok := true;
      if errors {
        ok := *;
      }
      var m := |buf|;
      if !ok {
        m :| 0 <= m <= |buf|;
      }
      var i := 0;
      while i < m
        invariant 0 <= i <= m && SameOutside(old(cells), cells, k, k + i)
        invariant forall j | k <= j < k + i :: cells[j] == Some(buf[j - k])
      {
        cells := cells[k + i := Some(buf[i])];
        i := i + 1;
      }
    }
  }

  /** What convert_co_write gets to write: the sectors themselves, or, if nothing was read, a chunk that is known. */
  ghost predicate ToWrite(c: Config, k: nat, n: nat, buf: seq<Sector>, status: ChunkStatus) {
    && k + n <= |Source(c)| && (status.BlkZero? ==> c.minSparse > 0)
    && if status.BlkData? then |buf| == n && AllWanted(c, k, buf) else ChunkOk(c, k, k + n, status)
  }

  /** One round of convert_co_write: the first `m` sectors of the chunk now read as they should. */
  method WriteSome(c: Config, t: Target, k: nat, n: nat, buf: seq<Sector>, status: ChunkStatus, errors: bool)
    returns (ok: bool, m: nat)
    requires Valid(c) && 0 < n && ToWrite(c, k, n, buf, status) && Unspoiled(c, t.cells, k, k + n)
    modifies t
    ensures 0 < m <= n && SameOutside(old(t.cells), t.cells, k, k + m)
    ensures ok ==> Copied(c, t.cells, k, k + m)
    ensures status.BlkBacking? || (status.BlkZero? && c.hasZeroInit) ==> ok && t.cells == old(t.cells)
    ensures status.BlkData? && c.minSparse > 0 && c.hasZeroInit && (forall i | 0 <= i < n :: AllZero(buf[i])) ==>
              ok && t.cells == old(t.cells)
    ensures status.BlkData? && c.minSparse == 0 && ok ==> forall i | k <= i < k + m :: t.cells[i] == Some(buf[i - k])
    ensures !ok ==> errors
  {
    m := n;
    if status.BlkBacking? {
      return true, m;
    }
    WholeSectors(c, k, n, buf, status);
    hide Valid;
    if status.BlkData? {
      var data;
      if c.minSparse == 0 {
        data := true;
      } else if c.compressed {
        data := exists i :: 0 <= i < n && !AllZero(buf[i]);
      } else {
        data, m := IsAllocatedSectorsMin(buf, c.minSparse, k, c.alignment);
        assert (forall i | 0 <= i < n :: AllZero(buf[i])) ==> IsRun(buf, n);
      }
      if data {
        ok := t.Write(k, buf[..m], errors);
        return;
      }
    }
    ZeroRange(c, k, n, m, buf, status);
    if c.hasZeroInit {
      return true, m;
    }
    ok := t.Write(k, seq(m, _ => ZeroSector()), errors);
  }

  lemma WholeSectors(c: Config, k: nat, n: nat, buf: seq<Sector>, status: ChunkStatus)
    requires Valid(c) && ToWrite(c, k, n, buf, status)
    ensures c.alignment > 0 && (c.hasZeroInit ==> !c.targetHasBacking)
    ensures status.BlkData? ==> forall i | 0 <= i < n :: |buf[i]| == SECTOR
  {
    if status.BlkData? {
      forall i | 0 <= i < n ensures |buf[i]| == SECTOR {
        assert Wanted(c, k + i, buf[i]);
      }
    }
  }

  lemma ZeroRange(c: Config, k: nat, n: nat, m: nat, buf: seq<Sector>, status: ChunkStatus)
    requires Valid(c) && m <= n && ToWrite(c, k, n, buf, status) && !status.BlkBacking?
    requires status.BlkData? ==> forall i | 0 <= i < m :: AllZero(buf[i])
    ensures forall i: nat | k <= i < k + m :: Wanted(c, i, ZeroSector())
  {
    forall i: nat | k <= i < k + m ensures Wanted(c, i, ZeroSector()) {
      if status.BlkData? {
        assert Wanted(c, k + (i - k), buf[i - k]);
        ZeroIsZero(buf[i - k]);
      } else {
        ZeroIsZero(Source(c)[i]);
      }
    }
  }

  /** convert_co_write: after success the whole chunk of the target reads as it should, whether it was written, zeroed, or
      left to the backing file or to a target that is zero from the start. */
  method CoWrite(c: Config, t: Target, k: nat, n: nat, buf: seq<Sector>, status: ChunkStatus, errors: bool) returns (ok: bool)
    requires Valid(c) && ToWrite(c, k, n, buf, status) && Unspoiled(c, t.cells, k, k + n)
    modifies t
    ensures SameOutside(old(t.cells), t.cells, k, k + n)
    ensures ok ==> Copied(c, t.cells, k, k + n)
    ensures status.BlkBacking? || (status.BlkZero? && c.hasZeroInit) ==> ok && t.cells == old(t.cells)
    ensures status.BlkData? && c.minSparse > 0 && c.hasZeroInit && (forall i | 0 <= i < n :: AllZero(buf[i])) ==>
              ok && t.cells == old(t.cells)
    ensures status.BlkData? && c.minSparse == 0 && ok ==> forall i | k <= i < k + n :: t.cells[i] == Some(buf[i - k])
    ensures !ok ==> errors
  {
    hide Valid, Source, Wanted;
    var done := 0;
    while done < n
      invariant status.BlkBacking? || (status.BlkZero? && c.hasZeroInit) ==> t.cells == old(t.cells)
      invariant status.BlkData? && c.minSparse > 0 && c.hasZeroInit && (forall i | 0 <= i < n :: AllZero(buf[i])) ==>
                  t.cells == old(t.cells)
      invariant 0 <= done <= n && |t.cells| == |Source(c)| && SameOutside(old(t.cells), t.cells, k, k + done)
      invariant Copied(c, t.cells, k, k + done)
      invariant status.BlkData? && c.minSparse == 0 ==> forall i | k <= i < k + done :: t.cells[i] == Some(buf[i - k])
    {
      ghost var before := t.cells;
      var rest := if status.BlkData? then buf[done..] else [];
      RestToWrite(c, k, n, buf, status, done);
      var m;
      ok, m := WriteSome(c, t, k + done, n - done, rest, status, errors);
      if !ok {
        return;
      }
      CopiedStep(c, before, t.cells, k, k + done, k + done + m);
      done := done + m;
    }
    ok := true;
  }

  lemma RestToWrite(c: Config, k: nat, n: nat, buf: seq<Sector>, status: ChunkStatus, done: nat)
    requires ToWrite(c, k, n, buf, status) && done <= n
    ensures ToWrite(c, k + done, n - done, if status.BlkData? then buf[done..] else [], status)
  {
    if status.BlkData? {
      forall i | 0 <= i < n - done ensures Wanted(c, k + done + i, buf[done..][i]) {
        assert Wanted(c, k + (done + i), buf[done + i]);
      }
    }
  }

  lemma CopiedStep(c: Config, a: Cells, b: Cells, lo: nat, mid: nat, hi: nat)
    requires lo <= mid <= hi && Copied(c, a, lo, mid) && SameOutside(a, b, mid, hi) && Copied(c, b, mid, hi)
    ensures Copied(c, b, lo, hi)
  {
    forall k: nat | lo <= k < hi ensures Reads(c, b, k).Some? && Wanted(c, k, Reads(c, b, k).value) {
      if k < mid {
        assert Reads(c, a, k).Some? && a[k] == b[k];
      }
    }
  }

  /** convert_co_copy_range: after success the chunk of the target reads as the source; after a failure nothing wrong has
      been written, so that the chunk can be copied in the ordinary way. */
  method CoCopyRange(c: Config, t: Target, k: nat, n: nat) returns (ok: bool)
    requires k + n <= |Source(c)| && Unspoiled(c, t.cells, k, k + n)
    modifies t
    ensures SameOutside(old(t.cells), t.cells, k, k + n) && Unspoiled(c, t.cells, k, k + n)
    ensures ok ==> Copied(c, t.cells, k, k + n)
  {
    assert |t.cells| == |Source(c)| && Copied(c, t.cells, k, k);
    OutsideTwice(t.cells, t.cells, t.cells, k, k, k, k + n);
    hide Copied, Unspoiled, Source, SameOutside;
    var done := 0;
    while done < n
      invariant 0 <= done <= n && |t.cells| == |Source(c)| && SameOutside(old(t.cells), t.cells, k, k + done)
      invariant Unspoiled(c, t.cells, k, k + n) && Copied(c, t.cells, k, k + done)
    {
      ghost var before := t.cells;
      var cur, offset := SelectPart(c.src, k + done);
      var m := Min(n - done, |c.src[cur]| - (k + done - offset));
      PartRange(c.src, k + done, cur, offset, m);
      ok := t.Write(k + done, c.src[cur][k + done - offset..k + done - offset + m], true);
      CopySome(c, before, t.cells, k, n, k + done, m, ok);
      OutsideTwice(old(t.cells), before, t.cells, k, k + done, k + done + m, k + n);
      if !ok {
        return;
      }
      CopiedStep(c, before, t.cells, k, k + done, k + done + m);
      done := done + m;
    }
    ok := true;
  }

  lemma OutsideTwice(a: Cells, b: Cells, d: Cells, lo: nat, mid: nat, hi: nat, end: nat)
    requires lo <= mid <= hi <= end && SameOutside(a, b, lo, mid) && SameOutside(b, d, mid, hi)
    ensures SameOutside(a, d, lo, hi) && SameOutside(a, d, lo, end) && |d| == |a|
  {
  }

  lemma CopySome(c: Config, a: Cells, b: Cells, k: nat, n: nat, at: nat, m: nat, ok: bool)
    requires k <= at && at + m <= k + n <= |Source(c)| && Unspoiled(c, a, k, k + n) && SameOutside(a, b, at, at + m)
    requires forall i | at <= i < at + m :: b[i] == Some(Source(c)[at..at + m][i - at]) || (!ok && b[i] == a[i])
    ensures Unspoiled(c, b, k, k + n) && (ok ==> Copied(c, b, at, at + m))
  {
    forall i: nat | k <= i < k + n && b[i].Some? ensures Wanted(c, i, b[i].value) {
      if at <= i < at + m && b[i] != a[i] {
        assert b[i] == Some(Source(c)[at..at + m][i - at]);
      }
    }
    if ok {
      forall i: nat | at <= i < at + m ensures Reads(c, b, i).Some? && Wanted(c, i, Reads(c, b, i).value) {
        assert b[i] == Some(Source(c)[at..at + m][i - at]);
      }
    }
  }

  /** A buffer of zeroes is what a zero chunk asks for. */
  lemma ZeroBuffer(c: Config, k: nat, n: nat, buf: seq<Sector>)
    requires Valid(c) && ChunkOk(c, k, k + n, BlkZero) && |buf| == n && forall i | 0 <= i < n :: buf[i] == ZeroSector()
    ensures AllWanted(c, k, buf)
  {
    forall i | 0 <= i < n ensures Wanted(c, k + i, buf[i]) {
      ZeroIsZero(Source(c)[k + i]);
    }
  }
}
