/**
  `qemu-img compare` (qemu/qemu-img.c) on error-free images.
 */
module ImgCompare {
  import opened ImgBuffers

  /** What bdrv_block_status_above says about a byte; `other` stands for the flags that only strict mode looks at.  The flag
      BDRV_BLOCK_EOF is not among them: it says that the answer reaches the end of the image. */
  datatype Status = Status(isAllocated: bool, isZero: bool, other: int)

  datatype Image = Image(data: seq<Byte>, status: seq<Status>)

  /** What is not allocated anywhere in the chain, or is known to be zero, reads as zero. */
  ghost predicate Truthful(img: Image) {
    && |img.status| == |img.data|
    && forall k | 0 <= k < |img.data| && (!img.status[k].isAllocated || img.status[k].isZero) :: img.data[k] == 0
  }

  /** A byte of the image, extended by zeroes without end. */
  function At(img: Image, k: nat): Byte {
    if k < |img.data| then img.data[k] else 0
  }

  ghost predicate SameContents(a: Image, b: Image) {
    forall k: nat :: At(a, k) == At(b, k)
  }

  ghost predicate SameStatus(a: Image, b: Image, lo: nat, hi: nat) {
    forall k | lo <= k < hi && k < |a.status| && k < |b.status| :: a.status[k] == b.status[k]
  }

  /** How far the answers of bdrv_block_status_above reach, from every offset: any length over which the status is the same. */
  ghost predicate AnswersOk(img: Image, ans: nat -> nat) {
    && |img.status| == |img.data|
    && forall k: nat | k < |img.data| :: AnswerOk(img, k, ans(k))
  }

  ghost predicate AnswerOk(img: Image, offset: nat, n: nat)
    requires offset < |img.data| == |img.status|
  {
    0 < n && offset + n <= |img.data| && forall k | offset <= k < offset + n :: img.status[k] == img.status[offset]
  }

  /** BDRV_BLOCK_EOF */
  predicate Eof(img: Image, offset: nat, n: nat) {
    offset + n == |img.data|
  }

  /** How much of what both answers cover is compared in one round. */
  function ChunkLen(s1: Status, s2: Status, limit: nat): nat {
    if (s1.isZero && s2.isZero) || (!s1.isAllocated && !s2.isAllocated) then limit else Min(limit, IO_BUF_SIZE)
  }

  /** One round of the main loop: how far the images have been compared, and whether they agree there. */
  method CompareChunk(a: Image, b: Image, offset: nat, s1: Status, s2: Status, limit: nat) returns (same: bool, chunk: nat)
    requires Truthful(a) && Truthful(b) && 0 < limit && offset + limit <= |a.data| && offset + limit <= |b.data|
    requires forall k | offset <= k < offset + limit :: a.status[k] == s1 && b.status[k] == s2
    ensures 0 < chunk == ChunkLen(s1, s2, limit) <= limit
    ensures same <==> a.data[offset..offset + chunk] == b.data[offset..offset + chunk]
  {
    chunk := limit;
    if s1.isZero && s2.isZero {
      BothZero(a, b, offset, chunk);
      return true, chunk;
    }
    if s1.isAllocated == s2.isAllocated {
      if s1.isAllocated {
        chunk := Min(chunk, IO_BUF_SIZE);
        var differ, pnum := CompareBuffers(a.data[offset..offset + chunk], b.data[offset..offset + chunk], 0);
        WholePrefix(a.data[offset..offset + chunk], b.data[offset..offset + chunk], pnum);
        return !(differ || pnum != chunk), chunk;
      }
      BothZero(a, b, offset, chunk);
      return true, chunk;
    }
    chunk := Min(chunk, IO_BUF_SIZE);
    var idx;
    if s1.isAllocated {
      idx := FindNonzero(a.data[offset..offset + chunk]);
      ZeroRange(b, offset, chunk);
    } else {
      idx := FindNonzero(b.data[offset..offset + chunk]);
      ZeroRange(a, offset, chunk);
    }
    ZeroesEqual(a.data[offset..offset + chunk], b.data[offset..offset + chunk]);
    return idx == -1, chunk;
  }

  lemma ZeroRange(img: Image, offset: nat, n: nat)
    requires Truthful(img) && offset + n <= |img.data|
    requires forall k | offset <= k < offset + n :: !img.status[k].isAllocated || img.status[k].isZero
    ensures AllZero(img.data[offset..offset + n])
  {
  }

  lemma BothZero(a: Image, b: Image, offset: nat, n: nat)
    requires Truthful(a) && Truthful(b) && offset + n <= |a.data| && offset + n <= |b.data|
    requires forall k | offset <= k < offset + n :: !a.status[k].isAllocated || a.status[k].isZero
    requires forall k | offset <= k < offset + n :: !b.status[k].isAllocated || b.status[k].isZero
    ensures a.data[offset..offset + n] == b.data[offset..offset + n]
  {
    ZeroRange(a, offset, n);
    ZeroRange(b, offset, n);
    ZeroesEqual(a.data[offset..offset + n], b.data[offset..offset + n]);
  }

  lemma ZeroesEqual(a: seq<Byte>, b: seq<Byte>)
    requires |a| == |b|
    ensures AllZero(a) ==> (AllZero(b) <==> a == b)
    ensures AllZero(b) ==> (AllZero(a) <==> a == b)
  {
  }

  lemma WholePrefix(a: seq<Byte>, b: seq<Byte>, pnum: nat)
    requires |a| == |b| && pnum <= |a|
    ensures pnum == |a| ==> a[..pnum] == a && b[..pnum] == b
    ensures pnum < |a| && ChunkDiffers(a, b, pnum, SECTOR) ==> a != b
    ensures ChunkDiffers(a, b, 0, SECTOR) ==> a != b
  {
  }

  /** The part by which the longer image sticks out is compared with zeroes. */
  method CheckTail(img: Image, start: nat, ans: nat -> nat) returns (same: bool)
    requires Truthful(img) && AnswersOk(img, ans) && start <= |img.data|
    ensures same <==> AllZero(img.data[start..])
  {
    var offset := start;
    while offset < |img.data|
      invariant start <= offset <= |img.data| && AllZero(img.data[start..offset])
    {
      var s, chunk := img.status[offset], ans(offset);
      assert AnswerOk(img, offset, chunk);
      if s.isAllocated && !s.isZero {
        chunk := Min(chunk, IO_BUF_SIZE);
        var idx := FindNonzero(img.data[offset..offset + chunk]);
        if idx != -1 {
          PartOfTail(img.data, start, offset, chunk);
          return false;
        }
      } else {
        ZeroRange(img, offset, chunk);
      }
      assert img.data[start..offset + chunk] == img.data[start..offset] + img.data[offset..offset + chunk];
      offset := offset + chunk;
    }
    assert img.data[start..offset] == img.data[start..];
    return true;
  }

  lemma PartOfTail(data: seq<Byte>, start: nat, offset: nat, n: nat)
    requires start <= offset && offset + n <= |data| && !AllZero(data[offset..offset + n])
    ensures !AllZero(data[start..])
  {
    var k :| 0 <= k < n && data[offset..offset + n][k] != 0;
    assert data[start..][offset - start + k] != 0;
  }

  lemma Differ(a: Image, b: Image, offset: nat, n: nat)
    requires offset + n <= |a.data| && offset + n <= |b.data| && a.data[offset..offset + n] != b.data[offset..offset + n]
    ensures !SameContents(a, b)
  {
    var k :| 0 <= k < n && a.data[offset..offset + n][k] != b.data[offset..offset + n][k];
    assert At(a, offset + k) != At(b, offset + k);
  }

  /** Images that agree on the shorter one's length are the same exactly if the rest of the longer one is zero. */
  lemma TailDecides(a: Image, b: Image)
    requires |a.data| >= |b.data| && a.data[..|b.data|] == b.data
    ensures SameContents(a, b) <==> AllZero(a.data[|b.data|..])
    ensures SameContents(b, a) <==> AllZero(a.data[|b.data|..])
  {
    forall k: nat ensures At(a, k) == At(b, k) <==> k < |b.data| || k >= |a.data| || a.data[|b.data|..][k - |b.data|] == 0 {
      if k < |b.data| { assert a.data[..|b.data|][k] == b.data[k]; }
    }
    if AllZero(a.data[|b.data|..]) {
      assert SameContents(a, b);
    } else {
      var k :| 0 <= k < |a.data| - |b.data| && a.data[|b.data|..][k] != 0;
      assert At(a, |b.data| + k) != At(b, |b.data| + k);
    }
  }

  /** At every offset that the loop comes to, from `offset` on, both answers reach the end of the image or neither does. */
  ghost predicate EofAgree(a: Image, b: Image, ans1: nat -> nat, ans2: nat -> nat, offset: nat)
    requires AnswersOk(a, ans1) && AnswersOk(b, ans2) && |a.data| == |b.data|
    decreases |a.data| - offset
  {
    offset >= |a.data| ||
    (&& AnswerOk(a, offset, ans1(offset)) && AnswerOk(b, offset, ans2(offset))
     && (Eof(a, offset, ans1(offset)) <==> Eof(b, offset, ans2(offset)))
     && EofAgree(a, b, ans1, ans2,
                 offset + ChunkLen(a.status[offset], b.status[offset], Min(ans1(offset), ans2(offset)))))
  }

  /** img_compare.  Without strict mode the result is 0 exactly if the images agree byte for byte, the shorter one being
      extended by zeroes; in strict mode sizes and block status must agree as well, and so must the ends of the answers. */
  method Compare(a: Image, b: Image, strict: bool, ans1: nat -> nat, ans2: nat -> nat) returns (ret: int)
    requires Truthful(a) && Truthful(b) && AnswersOk(a, ans1) && AnswersOk(b, ans2)
    ensures ret == 0 || ret == 1
    ensures !strict ==> (ret == 0 <==> SameContents(a, b))
    ensures strict ==> (ret == 0 <==> a.data == b.data && a.status == b.status && EofAgree(a, b, ans1, ans2, 0))
  {
    var total := Min(|a.data|, |b.data|);
    if strict && |a.data| != |b.data| {
      return 1;
    }
    var offset := 0;
    while offset < total
      invariant 0 <= offset <= total && a.data[..offset] == b.data[..offset]
      invariant strict ==> SameStatus(a, b, 0, offset)
      invariant strict ==> (EofAgree(a, b, ans1, ans2, offset) <==> EofAgree(a, b, ans1, ans2, 0))
    {
      var s1, pnum1 := a.status[offset], ans1(offset);
      var s2, pnum2 := b.status[offset], ans2(offset);
      assert AnswerOk(a, offset, pnum1) && AnswerOk(b, offset, pnum2);
      if strict && (s1 != s2 || Eof(a, offset, pnum1) != Eof(b, offset, pnum2)) {
        return 1;
      }
      var same, chunk := CompareChunk(a, b, offset, s1, s2, Min(pnum1, pnum2));
      if !same {
        Differ(a, b, offset, chunk);
        return 1;
      }
      assert a.data[..offset + chunk] == a.data[..offset] + a.data[offset..offset + chunk];
      assert b.data[..offset + chunk] == b.data[..offset] + b.data[offset..offset + chunk];
      offset := offset + chunk;
    }
    if |a.data| == |b.data| {
      assert a.data[..offset] == a.data && b.data[..offset] == b.data;
      assert strict ==> a.status == b.status;
      return 0;
    }
    if |a.data| > |b.data| {
      assert b.data[..offset] == b.data;
      TailDecides(a, b);
      var same := CheckTail(a, offset, ans1);
      return if same then 0 else 1;
    }
    assert a.data[..offset] == a.data;
    TailDecides(b, a);
    var same := CheckTail(b, offset, ans2);
    return if same then 0 else 1;
  }

  // ----------------------------------------------- the ends of the answers

  /** The status of the last byte reaches back over the one before. */
  predicate LongLastRun(img: Image) {
    |img.data| == |img.status| && |img.data| > 1 && img.status[|img.data| - 1] == img.status[|img.data| - 2]
  }

  /** Answers for one byte at a time, or, at the last byte but one, for both. */
  function Short(): nat -> nat {
    (k: nat) => 1
  }

  function LongAtEnd(size: nat): nat -> nat {
    (k: nat) => if k + 2 == size then 2 else 1
  }

  lemma ShortOk(img: Image)
    requires |img.data| == |img.status|
    ensures AnswersOk(img, Short()) && (LongLastRun(img) ==> AnswersOk(img, LongAtEnd(|img.data|)))
  {
  }

  lemma {:induction false} EndsDiffer(img: Image, offset: nat)
    requires LongLastRun(img) && offset + 2 <= |img.data|
    requires AnswersOk(img, Short()) && AnswersOk(img, LongAtEnd(|img.data|))
    ensures !EofAgree(img, img, Short(), LongAtEnd(|img.data|), offset)
    decreases |img.data| - offset
  {
    if offset + 2 < |img.data| {
      assert ChunkLen(img.status[offset], img.status[offset], 1) == 1;
      EndsDiffer(img, offset + 1);
    }
  }

  lemma {:induction false} EndsAgree(img: Image, ans1: nat -> nat, ans2: nat -> nat, offset: nat)
    requires AnswersOk(img, ans1) && AnswersOk(img, ans2) && (ans1 == ans2 || !LongLastRun(img))
    ensures EofAgree(img, img, ans1, ans2, offset)
    decreases |img.data| - offset
  {
    if offset < |img.data| {
      var n1, n2 := ans1(offset), ans2(offset);
      assert AnswerOk(img, offset, n1) && AnswerOk(img, offset, n2);
      LastRun(img, offset, n1);
      LastRun(img, offset, n2);
      EndsAgree(img, ans1, ans2, offset + ChunkLen(img.status[offset], img.status[offset], Min(n1, n2)));
    }
  }

  lemma LastRun(img: Image, offset: nat, n: nat)
    requires offset < |img.data| == |img.status| && AnswerOk(img, offset, n)
    ensures Eof(img, offset, n) && offset + 1 < |img.data| ==> LongLastRun(img)
  {
    if Eof(img, offset, n) && offset + 1 < |img.data| {
      var last := |img.data| - 1;
      assert img.status[last] == img.status[offset] && img.status[last - 1] == img.status[offset];
    }
  }

  /** Strict mode finds an image equal to itself, whatever the answers, exactly if the status of its last byte does not reach
      back over the one before; with the same answers for both it always does. */
  lemma StrictSelf(img: Image)
    requires |img.data| == |img.status|
    ensures (forall ans1, ans2 | AnswersOk(img, ans1) && AnswersOk(img, ans2) :: EofAgree(img, img, ans1, ans2, 0)) <==>
            !LongLastRun(img)
    ensures forall ans | AnswersOk(img, ans) :: EofAgree(img, img, ans, ans, 0)
  {
    ShortOk(img);
    if LongLastRun(img) {
      EndsDiffer(img, 0);
    } else {
      forall ans1, ans2 | AnswersOk(img, ans1) && AnswersOk(img, ans2) ensures EofAgree(img, img, ans1, ans2, 0) {
        EndsAgree(img, ans1, ans2, 0);
      }
    }
    forall ans | AnswersOk(img, ans) ensures EofAgree(img, img, ans, ans, 0) {
      EndsAgree(img, ans, ans, 0);
    }
  }

  /** A run in which it does not: two images of two zero bytes, answered in one range and in two. */
  method StrictTellsApart() returns (ret: int)
    ensures ret == 1
  {
    var s := Status(true, true, 0);
    var img := Image([0, 0], [s, s]);
    ShortOk(img);
    EndsDiffer(img, 0);
    ret := Compare(img, img, true, Short(), LongAtEnd(2));
  }
}
