/**
  When safe `qemu-img rebase` (qemu/qemu-img.c) does not come to its end: because the
  assertion of its loop fails, or because what it copies does not fit its buffers.
 */
module ImgRebaseStops {
  import opened ImgBuffers
  import opened ImgRebase

  // ------------------------------------------------------ answers to order

  /** Answers byte by byte, as from a chain with nothing allocated where both backing files read the same. */
  function Sparing(chain: Chain, before: seq<Byte>, after: seq<Byte>): nat -> Answer {
    (k: nat) =>
      if chain.Same? then Answer(1, false, 1)
      else if k < |before| then Answer(1, ByteAt(before, k) != ByteAt(after, k), 1) else Answer(1, false, 0)
  }

  lemma SparingOk(alloc: seq<bool>, before: seq<Byte>, after: seq<Byte>, chain: Chain)
    requires chain.Same? ==> before == after
    ensures AnswersOk(alloc, before, after, chain, Sparing(chain, before, after))
  {
  }

  /** `n` bytes from `start` on may be what the queries leave to be copied. */
  predicate MayCopy(alloc: seq<bool>, before: seq<Byte>, chain: Chain, start: nat, n: nat) {
    && !chain.Same? && 0 < n <= IO_BUF_SIZE && start + n <= |alloc| && (forall k | start <= k < start + n :: !alloc[k])
    && (chain.Below? && start < |before| ==> start + n <= |before|)
  }

  function CopyAnswer(chain: Chain, before: seq<Byte>, start: nat, n: nat): Answer {
    if chain.Below? && start < |before| then Answer(n, true, n) else Answer(n, false, 0)
  }

  lemma CopyAnswerOk(alloc: seq<bool>, before: seq<Byte>, after: seq<Byte>, chain: Chain, start: nat, n: nat)
    requires MayCopy(alloc, before, chain, start, n)
    ensures var a := CopyAnswer(chain, before, start, n);
            AnswerOk(alloc, before, after, chain, start, a) && !Skips(alloc, chain, start, a) && Asked(chain, a) == n
  {
  }

  lemma CopiesThat(alloc: seq<bool>, before: seq<Byte>, after: seq<Byte>, chain: Chain, start: nat, a: Answer)
    requires start < |alloc| && AnswerOk(alloc, before, after, chain, start, a) && !Skips(alloc, chain, start, a)
    ensures MayCopy(alloc, before, chain, start, Asked(chain, a))
  {
  }

  // ----------------------------------------------------------- one byte

  lemma BlockEndIs(k: nat, align: nat)
    requires align > 0
    ensures BlockEnd(k + 1, align) == BlockStart(k, align) + align
  {
    var s, e := BlockStart(k, align), BlockEnd(k + 1, align);
    AlignedSum(s, align);
    MultiplesApart(s, e, align);
    if s + align < e {
      MultiplesApart(s + align, e, align);
    }
  }

  /** The round about one byte: its block must be free, and fit the buffers. */
  lemma OneByte(alloc: seq<bool>, align: nat, chain: Chain, start: nat, a: Answer)
    requires align > 0 && start < |alloc| && Asked(chain, a) == 1 && !Skips(alloc, chain, start, a)
    ensures RoundOutcome(alloc, align, chain, start, a) ==
              if !BlockFree(alloc, align, start) then AssertionFails
              else if !BlockFits(|alloc|, align, start) then Overruns else Done
    ensures var next := RoundNext(alloc, align, chain, start, a);
            forall k: nat | start <= k < next && k < |alloc| :: BlockStart(k, align) == BlockStart(start, align)
  {
    var s := BlockStart(start, align);
    BlockEndIs(start, align);
    forall k: nat | start <= k < s + align ensures BlockStart(k, align) == s {
      SameBlock(k, start, align);
    }
  }

  /** Asked byte by byte and sparing what can be spared, a tidy overlay is rebased. */
  lemma {:induction false} SparingWorks(alloc: seq<bool>, before: seq<Byte>, after: seq<Byte>, align: nat, chain: Chain,
                                        start: nat)
    requires align > 0 && Tidy(alloc, align, start, chain, before, after)
    requires AnswersOk(alloc, before, after, chain, Sparing(chain, before, after))
    ensures RunFrom(alloc, before, after, align, chain, Sparing(chain, before, after), start).Done?
    decreases |alloc| - start
  {
    if start < |alloc| {
      var a := Sparing(chain, before, after)(start);
      RoundAdvances(alloc, before, after, align, chain, start, a);
      assert Passable(alloc, align, chain, before, after, start);
      if !Skips(alloc, chain, start, a) {
        OneByte(alloc, align, chain, start, a);
      }
      SparingWorks(alloc, before, after, align, chain, RoundNext(alloc, align, chain, start, a));
    }
  }

  /** There are true answers with which the loop comes to its end exactly if every byte can be passed: it is allocated, or
      spared, or in a free block that fits the buffers. */
  lemma SomeAnswersWork(alloc: seq<bool>, before: seq<Byte>, after: seq<Byte>, align: nat, chain: Chain)
    requires align > 0 && (chain.Same? ==> before == after)
    ensures (exists ans :: AnswersOk(alloc, before, after, chain, ans) &&
                           RunFrom(alloc, before, after, align, chain, ans, 0).Done?) <==>
            Tidy(alloc, align, 0, chain, before, after)
  {
    SparingOk(alloc, before, after, chain);
    if Tidy(alloc, align, 0, chain, before, after) {
      SparingWorks(alloc, before, after, align, chain, 0);
    }
    if ans :| AnswersOk(alloc, before, after, chain, ans) && RunFrom(alloc, before, after, align, chain, ans, 0).Done? {
      DoneTidy(alloc, before, after, align, chain, ans, 0);
    }
  }

  // ------------------------------------------------- where the loop stops

  /** The loop can come to `start`: nothing before its block stops it, and it has passed over the part of the block before
      `start` without copying. */
  ghost predicate Passed(alloc: seq<bool>, before: seq<Byte>, after: seq<Byte>, align: nat, chain: Chain, start: nat)
    requires align > 0
  {
    && (forall k: nat | k < BlockStart(start, align) && k < |alloc| :: Passable(alloc, align, chain, before, after, k))
    && forall k: nat | BlockStart(start, align) <= k < start && k < |alloc| :: alloc[k] || Spared(chain, before, after, k)
  }

  /** The loop can come to `start`, be left to copy `n` bytes there, and stop with `r`. */
  ghost predicate StopsAt(alloc: seq<bool>, before: seq<Byte>, after: seq<Byte>, align: nat, chain: Chain, r: Outcome,
                          start: nat, n: nat)
    requires align > 0
  {
    && MayCopy(alloc, before, chain, start, n) && Passed(alloc, before, after, align, chain, start)
    && CopyOutcome(alloc, align, start, n) == r && !r.Done?
  }

  lemma RoundPasses(alloc: seq<bool>, before: seq<Byte>, after: seq<Byte>, align: nat, chain: Chain, start: nat, a: Answer)
    requires align > 0 && start < |alloc| && AnswerOk(alloc, before, after, chain, start, a)
    requires Passed(alloc, before, after, align, chain, start) && RoundOutcome(alloc, align, chain, start, a).Done?
    requires RoundNext(alloc, align, chain, start, a) < |alloc|
    ensures Passed(alloc, before, after, align, chain, RoundNext(alloc, align, chain, start, a))
  {
    RoundTidy(alloc, before, after, align, chain, start, a);
    var next := RoundNext(alloc, align, chain, start, a);
    forall k: nat | k < next ensures Passable(alloc, align, chain, before, after, k) {
    }
    if Skips(alloc, chain, start, a) {
      forall k: nat | BlockStart(next, align) <= k < next && k < |alloc| ensures alloc[k] || Spared(chain, before, after, k) {
        if k < start {
          SameBlock(start, next, align);
        }
      }
    } else {
      OneSide(next, next, align);
    }
  }

  lemma {:induction false} StopsSomewhere(alloc: seq<bool>, before: seq<Byte>, after: seq<Byte>, align: nat, chain: Chain,
                                          ans: nat -> Answer, start: nat)
    returns (at: nat, n: nat)
    requires align > 0 && AnswersOk(alloc, before, after, chain, ans)
    requires start < |alloc| ==> Passed(alloc, before, after, align, chain, start)
    requires !RunFrom(alloc, before, after, align, chain, ans, start).Done?
    ensures StopsAt(alloc, before, after, align, chain, RunFrom(alloc, before, after, align, chain, ans, start), at, n)
    decreases |alloc| - start
  {
    var a := ans(start);
    assert AnswerOk(alloc, before, after, chain, start, a);
    RoundAdvances(alloc, before, after, align, chain, start, a);
    if RoundOutcome(alloc, align, chain, start, a).Done? {
      var next := RoundNext(alloc, align, chain, start, a);
      if next < |alloc| {
        RoundPasses(alloc, before, after, align, chain, start, a);
      }
      hide AnswerOk, RoundOutcome, RoundNext, Passed, StopsAt;
      at, n := StopsSomewhere(alloc, before, after, align, chain, ans, next);
    } else {
      at, n := start, Asked(chain, a);
      CopiesThat(alloc, before, after, chain, start, a);
    }
  }

  /** Sparing answers, but at one place those that leave `n` bytes to be copied. */
  function Stretched(chain: Chain, before: seq<Byte>, after: seq<Byte>, at: nat, n: nat): nat -> Answer {
    (k: nat) => if k == at then CopyAnswer(chain, before, at, n) else Sparing(chain, before, after)(k)
  }

  lemma StretchedOk(alloc: seq<bool>, before: seq<Byte>, after: seq<Byte>, chain: Chain, at: nat, n: nat)
    requires MayCopy(alloc, before, chain, at, n)
    ensures AnswersOk(alloc, before, after, chain, Stretched(chain, before, after, at, n))
  {
    SparingOk(alloc, before, after, chain);
    CopyAnswerOk(alloc, before, after, chain, at, n);
    var ans := Stretched(chain, before, after, at, n);
    forall k: nat | k < |alloc| ensures AnswerOk(alloc, before, after, chain, k, ans(k)) {
      if k != at {
        assert ans(k) == Sparing(chain, before, after)(k);
      }
    }
  }

  /** On the way there a round is done, and does not go past it. */
  lemma StretchedStep(alloc: seq<bool>, before: seq<Byte>, after: seq<Byte>, align: nat, chain: Chain, at: nat, start: nat)
    requires align > 0 && Passed(alloc, before, after, align, chain, at) && start < at < |alloc| && !chain.Same?
    ensures var a := Sparing(chain, before, after)(start);
            RoundOutcome(alloc, align, chain, start, a).Done? && start < RoundNext(alloc, align, chain, start, a) <= at
  {
    var a := Sparing(chain, before, after)(start);
    assert BlockStart(at, align) <= start ==> alloc[start] || Spared(chain, before, after, start);
    if !Skips(alloc, chain, start, a) {
      assert start < BlockStart(at, align) && Passable(alloc, align, chain, before, after, start);
      OneByte(alloc, align, chain, start, a);
      NotYetThere(at, start, align, RoundNext(alloc, align, chain, start, a));
    }
  }

  lemma NotYetThere(at: nat, start: nat, align: nat, next: nat)
    requires align > 0 && start < BlockStart(at, align)
    requires forall k: nat | start <= k < next :: BlockStart(k, align) == BlockStart(start, align)
    ensures next <= at
  {
    var s := BlockStart(at, align);
    OneSide(s, s, align);
  }

  lemma {:induction false} StretchedStops(alloc: seq<bool>, before: seq<Byte>, after: seq<Byte>, align: nat, chain: Chain,
                                          r: Outcome, at: nat, n: nat, start: nat)
    requires align > 0 && StopsAt(alloc, before, after, align, chain, r, at, n) && start <= at
    requires AnswersOk(alloc, before, after, chain, Stretched(chain, before, after, at, n))
    ensures RunFrom(alloc, before, after, align, chain, Stretched(chain, before, after, at, n), start) == r
    decreases at - start
  {
    var ans := Stretched(chain, before, after, at, n);
    assert start < |alloc| && at < |alloc| && !chain.Same?;
    if start == at {
      CopyAnswerOk(alloc, before, after, chain, at, n);
      assert ans(at) == CopyAnswer(chain, before, at, n);
      assert RoundOutcome(alloc, align, chain, at, ans(at)) == r;
      hide StopsAt, AnswersOk, RoundOutcome, RoundNext;
    } else {
      assert ans(start) == Sparing(chain, before, after)(start);
      StretchedStep(alloc, before, after, align, chain, at, start);
      hide StopsAt, AnswersOk, RoundOutcome, RoundNext;
      StretchedStops(alloc, before, after, align, chain, r, at, n, RoundNext(alloc, align, chain, start, ans(start)));
    }
  }

  /** There are true answers with which the loop stops with `r` exactly if there is a place where it can. */
  lemma StopsExactly(alloc: seq<bool>, before: seq<Byte>, after: seq<Byte>, align: nat, chain: Chain, r: Outcome)
    requires align > 0 && !r.Done?
    ensures (exists ans :: AnswersOk(alloc, before, after, chain, ans) &&
                           RunFrom(alloc, before, after, align, chain, ans, 0) == r) <==>
            exists at: nat, n: nat :: StopsAt(alloc, before, after, align, chain, r, at, n)
  {
    forall ans | AnswersOk(alloc, before, after, chain, ans) && RunFrom(alloc, before, after, align, chain, ans, 0) == r
      ensures exists at: nat, n: nat :: StopsAt(alloc, before, after, align, chain, r, at, n)
    {
      var at, n := StopsSomewhere(alloc, before, after, align, chain, ans, 0);
    }
    if at: nat, n: nat :| StopsAt(alloc, before, after, align, chain, r, at, n) {
      StretchedOk(alloc, before, after, chain, at, n);
      StretchedStops(alloc, before, after, align, chain, r, at, n, 0);
    }
  }

  // ----------------------------------------------- when the assertion holds

  /** The first byte that is not allocated although its block is in part. */
  lemma {:induction false} FirstMixed(alloc: seq<bool>, align: nat, lo: nat) returns (k: nat)
    requires align > 0 && lo < |alloc| && exists j: nat :: lo <= j < |alloc| && !alloc[j] && !BlockFree(alloc, align, j)
    ensures lo <= k < |alloc| && !alloc[k] && !BlockFree(alloc, align, k)
    ensures forall j: nat | lo <= j < k :: alloc[j] || BlockFree(alloc, align, j)
    decreases |alloc| - lo
  {
    if !alloc[lo] && !BlockFree(alloc, align, lo) {
      k := lo;
    } else {
      hide BlockFree;
      k := FirstMixed(alloc, align, lo + 1);
    }
  }

  lemma SameBlockFree(alloc: seq<bool>, align: nat, j: nat, k: nat)
    requires align > 0 && BlockStart(j, align) == BlockStart(k, align)
    ensures BlockFree(alloc, align, j) <==> BlockFree(alloc, align, k)
  {
  }

  lemma MixedStops(alloc: seq<bool>, before: seq<Byte>, after: seq<Byte>, align: nat, chain: Chain) returns (k: nat)
    requires align > 0 && !chain.Same? && !BlockUniform(alloc, align)
    requires forall j: nat | j < |alloc| :: BlockFits(|alloc|, align, j)
    ensures StopsAt(alloc, before, after, align, chain, AssertionFails, k, 1)
  {
    UniformFree(alloc, align);
    k := FirstMixed(alloc, align, 0);
    var s := BlockStart(k, align);
    BlockEndIs(k, align);
    forall j: nat | s <= j < k ensures alloc[j] {
      SameBlock(j, k, align);
      SameBlockFree(alloc, align, j, k);
    }
  }

  lemma FailsOnMixed(alloc: seq<bool>, before: seq<Byte>, after: seq<Byte>, align: nat, chain: Chain, at: nat, n: nat)
    requires align > 0 && StopsAt(alloc, before, after, align, chain, AssertionFails, at, n)
    ensures !chain.Same? && !BlockUniform(alloc, align)
  {
    hide Passed;
    if BlockUniform(alloc, align) {
      WidenFree(alloc, align, at, at + n);
    }
  }

  /** The assertion holds whatever the queries answer, as long as it is true, exactly if there is no place where it can fail.
      If every block fits the buffers, that means that every block is allocated as a whole or not at all, or that the backing
      file stays the same. */
  lemma AssertionAlwaysHolds(alloc: seq<bool>, before: seq<Byte>, after: seq<Byte>, align: nat, chain: Chain)
    requires align > 0
    ensures (forall ans | AnswersOk(alloc, before, after, chain, ans) ::
               !RunFrom(alloc, before, after, align, chain, ans, 0).AssertionFails?) <==>
            !exists at: nat, n: nat :: StopsAt(alloc, before, after, align, chain, AssertionFails, at, n)
    ensures (forall k: nat | k < |alloc| :: BlockFits(|alloc|, align, k)) ==>
              ((exists at: nat, n: nat :: StopsAt(alloc, before, after, align, chain, AssertionFails, at, n)) <==>
               !chain.Same? && !BlockUniform(alloc, align))
  {
    hide StopsAt, BlockUniform;
    StopsExactly(alloc, before, after, align, chain, AssertionFails);
    forall at: nat, n: nat | StopsAt(alloc, before, after, align, chain, AssertionFails, at, n)
      ensures !chain.Same? && !BlockUniform(alloc, align)
    {
      FailsOnMixed(alloc, before, after, align, chain, at, n);
    }
    if !chain.Same? && !BlockUniform(alloc, align) && forall k: nat | k < |alloc| :: BlockFits(|alloc|, align, k) {
      var k := MixedStops(alloc, before, after, align, chain);
    }
  }

  /** An overlay with a block that is neither free nor allocated, such as a cluster of four bytes one of whose subclusters is
      allocated, written compressed and so aligned to clusters: the assertion fails. */
  method MixedCluster() returns (r: Outcome)
    ensures r.AssertionFails?
  {
    var o := new Overlay(Disk([true, true, false, false], [1, 1, 0, 0]));
    ghost var alloc := o.disk.alloc;
    var before, after := [7, 7, 7, 7], [8, 8, 8, 8];
    var ans := Stretched(Outside, before, after, 2, 1);
    assert BlockStart(2, 4) == 0 && BlockEnd(3, 4) == 4 && alloc[0] && alloc[1];
    assert StopsAt(alloc, before, after, 4, Outside, AssertionFails, 2, 1);
    StretchedOk(alloc, before, after, Outside, 2, 1);
    StretchedStops(alloc, before, after, 4, Outside, AssertionFails, 2, 1, 0);
    r := Rebase(o, before, after, 4, Outside, ans, false, [1, 1, 7, 7]);
  }

  // ------------------------------------------------ when the buffers suffice

  lemma AlignedSpan(start: nat, n: nat, align: nat)
    requires align > 0
    ensures var span := BlockEnd(start + n, align) - BlockStart(start, align);
            span % align == 0 && start % align + n <= span < start % align + n + align
  {
    var a, b := BlockStart(start, align), BlockEnd(start + n, align);
    var p, q := a / align, b / align;
    assert b - a == (q - p) * align by { Distribute(q, p, align); }
    if q < p {
      NonzeroProduct(q - p, align);
    } else {
      MultipleMod(q - p, align);
    }
  }

  /** A multiple of the alignment from `x` up to less than a block further is where the block of `x` ends. */
  lemma BlockEndUnique(x: nat, e: nat, align: nat)
    requires align > 0 && e % align == 0 && x <= e < x + align
    ensures e == BlockEnd(x, align)
  {
    var b := BlockEnd(x, align);
    if b < e {
      MultiplesApart(b, e, align);
    } else if e < b {
      MultiplesApart(e, b, align);
    }
  }

  /** When the widened range fits the buffers; and in short, if blocks divide them evenly. */
  lemma WidenedFits(start: nat, n: nat, size: nat, align: nat)
    requires align > 0 && 0 < n && start + n <= size
    ensures WideEnd(size, align, start, n) - BlockStart(start, align) <= IO_BUF_SIZE <==>
            BlockEnd(start % align + n, align) <= IO_BUF_SIZE || size - BlockStart(start, align) <= IO_BUF_SIZE
    ensures IO_BUF_SIZE % align == 0 ==>
              (WideEnd(size, align, start, n) - BlockStart(start, align) <= IO_BUF_SIZE <==> start % align + n <= IO_BUF_SIZE)
  {
    AlignedSpan(start, n, align);
    var span := BlockEnd(start + n, align) - BlockStart(start, align);
    BlockEndUnique(start % align + n, span, align);
    if IO_BUF_SIZE < span && IO_BUF_SIZE % align == 0 {
      MultiplesApart(IO_BUF_SIZE, span, align);
    }
  }

  /** A round overruns the buffers exactly if it has something free to copy, and that, counted from the block boundary below it
      and rounded up to whole blocks or cut off at the end of the image, is more than they hold. */
  lemma RoundOverruns(alloc: seq<bool>, before: seq<Byte>, after: seq<Byte>, align: nat, chain: Chain, start: nat, a: Answer)
    requires align > 0 && start < |alloc| && AnswerOk(alloc, before, after, chain, start, a)
    ensures RoundOutcome(alloc, align, chain, start, a).Overruns? <==>
              && !Skips(alloc, chain, start, a)
              && Free(alloc, BlockStart(start, align), WideEnd(|alloc|, align, start, Asked(chain, a)))
              && BlockEnd(start % align + Asked(chain, a), align) > IO_BUF_SIZE
              && |alloc| - BlockStart(start, align) > IO_BUF_SIZE
  {
    RoundAdvances(alloc, before, after, align, chain, start, a);
    WidenedFits(start, Asked(chain, a), |alloc|, align);
  }

  /** There are true answers with which the loop overruns its buffers exactly if there is a place where it can.  There is none
      if the backing file stays the same, nor if blocks divide the buffers evenly and the new backing file is not in the old
      chain. */
  lemma BuffersMayOverrun(alloc: seq<bool>, before: seq<Byte>, after: seq<Byte>, align: nat, chain: Chain)
    requires align > 0
    ensures (exists ans :: AnswersOk(alloc, before, after, chain, ans) &&
                           RunFrom(alloc, before, after, align, chain, ans, 0).Overruns?) <==>
            exists at: nat, n: nat :: StopsAt(alloc, before, after, align, chain, Overruns, at, n)
    ensures chain.Same? || (chain.Outside? && IO_BUF_SIZE % align == 0) ==>
              !exists at: nat, n: nat :: StopsAt(alloc, before, after, align, chain, Overruns, at, n)
  {
    StopsExactly(alloc, before, after, align, chain, Overruns);
    forall at: nat, n: nat | StopsAt(alloc, before, after, align, chain, Overruns, at, n)
      ensures chain.Below? || (chain.Outside? && IO_BUF_SIZE % align != 0)
    {
      WidenedFits(at, n, |alloc|, align);
      var s := BlockStart(at, align);
      assert s < at ==> !alloc[s] && (alloc[s] || Spared(chain, before, after, s));
    }
  }

  /** The answers for offsets on block boundaries end on block boundaries, or at the end of the image. */
  ghost predicate EndsAligned(size: nat, align: nat, chain: Chain, ans: nat -> Answer)
    requires align > 0
  {
    forall start: nat | start < size && start % align == 0 ::
      && ((start + ans(start).n) % align == 0 || start + ans(start).n == size)
      && (!chain.Outside? ==> (start + ans(start).m) % align == 0 || start + ans(start).m == size)
  }

  /** With such answers no round overruns the buffers. */
  lemma {:induction false} AlignedNeverOverruns(alloc: seq<bool>, before: seq<Byte>, after: seq<Byte>, align: nat, chain: Chain,
                                                ans: nat -> Answer, start: nat)
    requires align > 0 && AnswersOk(alloc, before, after, chain, ans)
    requires EndsAligned(|alloc|, align, chain, ans) && (start % align == 0 || start >= |alloc|)
    ensures !RunFrom(alloc, before, after, align, chain, ans, start).Overruns?
    decreases |alloc| - start
  {
    if start < |alloc| {
      var a := ans(start);
      assert AnswerOk(alloc, before, after, chain, start, a);
      RoundAdvances(alloc, before, after, align, chain, start, a);
      hide AnswerOk;
      AlignedNeverOverruns(alloc, before, after, align, chain, ans, RoundNext(alloc, align, chain, start, a));
    }
  }

  /** A free block at the start that does not fit the buffers: outside the old chain every true answer leads to an overrun. */
  lemma BigBlockOverruns(alloc: seq<bool>, before: seq<Byte>, after: seq<Byte>, align: nat, ans: nat -> Answer)
    requires align > 0 && |alloc| > 0 && AnswersOk(alloc, before, after, Outside, ans)
    requires BlockFree(alloc, align, 0) && !BlockFits(|alloc|, align, 0)
    ensures RunFrom(alloc, before, after, align, Outside, ans, 0).Overruns?
  {
    var a := ans(0);
    assert AnswerOk(alloc, before, after, Outside, 0, a);
    BlockEndUnique(a.n, align, align);
  }

  /** Such a run: one cluster of 4 MiB, and a new backing file outside the old chain. */
  method BigCluster() returns (r: Outcome)
    ensures r.Overruns?
  {
    var size := 2 * IO_BUF_SIZE;
    var alloc := seq(size, _ => false);
    var o := new Overlay(Disk(alloc, seq(size, _ => 0)));
    SparingOk(alloc, [], [], Outside);
    assert BlockStart(0, size) == 0;
    BigBlockOverruns(alloc, [], [], size, Sparing(Outside, [], []));
    r := Rebase(o, [], [], size, Outside, Sparing(Outside, [], []), false, seq(size, _ => 0));
  }

  const CLUSTER := 65536

  /** The answers for an empty overlay on top of a chain whose old backing file has one sector and nothing allocated. */
  function ShortAnswer(size: nat, k: nat): Answer {
    var n := if k < size then Min(IO_BUF_SIZE, size - k) else 1;
    Answer(n, false, if k < SECTOR then SECTOR - k else 0)
  }

  function ShortBacking(size: nat): nat -> Answer {
    (k: nat) => ShortAnswer(size, k)
  }

  lemma ShortBackingOk(alloc: seq<bool>, before: seq<Byte>)
    requires (forall k | 0 <= k < |alloc| :: !alloc[k]) && |before| == SECTOR && AllZero(before) && |alloc| >= SECTOR
    ensures AnswersOk(alloc, before, [], Below, ShortBacking(|alloc|))
  {
    var ans := ShortBacking(|alloc|);
    forall k: nat | k < |alloc| ensures AnswerOk(alloc, before, [], Below, k, ans(k)) {
      assert ans(k) == ShortAnswer(|alloc|, k);
    }
  }

  /** The first round stops at the end of the old backing file, off a block boundary; the second one asks for as much as the
      buffers hold from there, and what it is widened to does not fit. */
  lemma ShortBackingOverruns(alloc: seq<bool>, before: seq<Byte>)
    requires (forall k | 0 <= k < |alloc| :: !alloc[k]) && |before| == SECTOR && AllZero(before)
    requires |alloc| >= IO_BUF_SIZE + CLUSTER && AnswersOk(alloc, before, [], Below, ShortBacking(|alloc|))
    ensures RunFrom(alloc, before, [], CLUSTER, Below, ShortBacking(|alloc|), 0).Overruns?
  {
    var ans := ShortBacking(|alloc|);
    assert Skips(alloc, Below, 0, ans(0)) && SkipTo(alloc, 0, ans(0)) == SECTOR;
    var a := ans(SECTOR);
    assert a == ShortAnswer(|alloc|, SECTOR);
    assert !Skips(alloc, Below, SECTOR, a) && Asked(Below, a) == IO_BUF_SIZE;
    RoundOverruns(alloc, before, [], CLUSTER, Below, SECTOR, a);
    hide WideEnd, BlockStart, BlockEnd, RoundOutcome;
    assert RunFrom(alloc, before, [], CLUSTER, Below, ans, SECTOR).Overruns?;
  }

  /** Such a run: an overlay with clusters of 64 KiB over an old backing file of 512 bytes, rebased to a file further down. */
  method DoesNotFit() returns (r: Outcome)
    ensures r.Overruns?
  {
    var size := IO_BUF_SIZE + CLUSTER;
    var alloc, before := seq(size, _ => false), seq(SECTOR, _ => 0);
    var o := new Overlay(Disk(alloc, seq(size, _ => 0)));
    ShortBackingOk(alloc, before);
    ShortBackingOverruns(alloc, before);
    r := Rebase(o, before, [], CLUSTER, Below, ShortBacking(size), false, seq(size, _ => 0));
  }
}
