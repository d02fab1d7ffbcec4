/**
  `qemu-img convert` at work: the coroutines of convert_co_do_copy (qemu/qemu-img.c)
  take turns in any order, and each turn is a step of the machine of ImgConvertRun.
 */
module ImgConvertExec {
  import opened Wrappers
  import opened ImgBuffers
  import opened ImgConvert
  import opened ImgConvertRun
  import opened ImgConvertEnds

  /** The coroutine has a buffer to write. */
  predicate Holding(co: Co) {
    (co.Waiting? || co.Woken? || co.Writing?) && co.st.BlkData? && !co.copying
  }

  ghost predicate BufOk(c: Config, co: Co, bufs: map<nat, seq<Sector>>, i: nat) {
    && (Holding(co) ==> co.lo <= co.hi && i in bufs && |bufs[i]| == co.hi - co.lo && AllWanted(c, co.lo, bufs[i]))
    && ((co.Waiting? || co.Woken? || co.Writing?) && co.st.BlkZero? ==> c.minSparse > 0)
  }

  ghost predicate BufsOk(c: Config, cos: map<nat, Co>, bufs: map<nat, seq<Sector>>) {
    forall i | i in cos :: BufOk(c, cos[i], bufs, i)
  }

  /** No two chunks begin at the same sector. */
  ghost predicate OneAt(cos: map<nat, Co>) {
    forall i, j | i in cos && j in cos && Active(cos[i]) && Active(cos[j]) && cos[i].lo == cos[j].lo :: i == j
  }

  lemma ChunksOneAt(c: Config, s: State)
    requires ChunksInv(c, s)
    ensures OneAt(s.cos)
  {
    forall i, j | i in s.cos && j in s.cos && Active(s.cos[i]) && Active(s.cos[j]) && s.cos[i].lo == s.cos[j].lo ensures i == j {
      assert ChunkInv(c, s, s.cos[i]) && ChunkInv(c, s, s.cos[j]);
      assert i != j ==> Apart(s.cos[i], s.cos[j]);
    }
  }

  /** The buffers of the others are not concerned. */
  lemma OthersBufs(c: Config, s: State, s': State, i: nat, bufs: map<nat, seq<Sector>>, bufs': map<nat, seq<Sector>>)
    requires OthersSame(s, s', i) && i in s.cos && BufsOk(c, s.cos, bufs) && bufs' - {i} == bufs - {i}
    requires BufOk(c, s'.cos[i], bufs', i)
    ensures BufsOk(c, s'.cos, bufs')
  {
    hide AllWanted;
    forall j | j in s'.cos && j != i ensures BufOk(c, s'.cos[j], bufs', j) {
      assert BufOk(c, s.cos[j], bufs, j);
      assert j in bufs ==> j in bufs - {i} && (bufs - {i})[j] == bufs[j];
      assert j in bufs' ==> j in bufs' - {i} && (bufs' - {i})[j] == bufs'[j];
    }
  }

  lemma HasLock(c: Config, inOrder: bool, s: State, i: nat)
    requires Reachable(c, inOrder, s) && i in s.cos && s.cos[i].Querying?
    ensures ChunksInv(c, s) && s.sectorNum < |Source(c)| && !s.ret.Success?
  {
    ReachableInv(c, inOrder, s);
    hide ChunksInv;
  }

  /** What is known of a chunk in hand. */
  lemma InHand(c: Config, inOrder: bool, s: State, i: nat, bufs: map<nat, seq<Sector>>)
    requires Reachable(c, inOrder, s) && i in s.cos && Active(s.cos[i]) && BufsOk(c, s.cos, bufs)
    ensures ChunksInv(c, s) && OneAt(s.cos) && BufOk(c, s.cos[i], bufs, i)
    ensures var co := s.cos[i];
            && co.lo < co.hi <= |Source(c)| && Unspoiled(c, s.cells, co.lo, co.hi) && (co.copying ==> co.st.BlkData?)
            && (co.Reading? ==> co.st.BlkData? && co.hi - co.lo <= c.bufSectors)
            && (co.Writing? && !co.copying ==>
                  ToWrite(c, co.lo, co.hi - co.lo, if co.st.BlkData? && i in bufs then bufs[i] else [], co.st))
  {
    hide AllWanted, Unspoiled;
    ReachableInv(c, inOrder, s);
    ChunksOneAt(c, s);
    assert ChunkInv(c, s, s.cos[i]) && BufOk(c, s.cos[i], bufs, i);
  }

  /** At the label `retry` a buffer is made for a zero chunk only. */
  lemma BeginBuf(c: Config, inOrder: bool, s: State, i: nat, bufs: map<nat, seq<Sector>>)
    requires ImgConvert.Valid(c) && i in s.cos && Active(s.cos[i]) && ChunkInv(c, s, s.cos[i])
    requires var co := s.cos[i];
             WriteStatus(c, co.st) != co.st ==> i in bufs && bufs[i] == seq(co.hi - co.lo, _ => ZeroSector())
    ensures BufOk(c, Begin(c, inOrder, s, i).cos[i], bufs, i)
  {
    var co := s.cos[i];
    if WriteStatus(c, co.st) != co.st {
      ZeroBuffer(c, co.lo, co.hi - co.lo, bufs[i]);
    }
    hide ImgConvert.Valid, AllWanted, ChunkOk;
  }

  /** ImgConvertState, with the locals of the coroutines. */
  class Conversion {
    const c: Config
    const inOrder: bool
    const conv: Convert
    const t: Target
    var cos: map<nat, Co>
    var wrOffs: nat
    var ret: Result
    var copyRange: bool
    var bufs: map<nat, seq<Sector>>
    ghost var taken: seq<Chunk>
    ghost var written: seq<Chunk>

    ghost function View(): State
      reads this, conv, t
    {
      State(cos, conv.sectorNum, wrOffs, ret, copyRange, t.cells, taken, written)
    }

    ghost predicate Valid()
      reads this, conv, t
    {
      && ImgConvert.Valid(c) && conv.c == c && conv.Known(conv.sectorNum)
      && Reachable(c, inOrder, View()) && BufsOk(c, cos, bufs)
    }

    /** The last part of convert_do_copy: the coroutines are created. */
    constructor (c: Config, inOrder: bool, copyRange: bool, coroutines: nat)
      requires ImgConvert.Valid(c)
      ensures Valid() && fresh(conv) && fresh(t) && this.c == c && this.inOrder == inOrder
      ensures ret.InProgress? && (forall i: nat :: i in cos <==> i < coroutines)
    {
      this.c, this.inOrder, this.copyRange := c, inOrder, copyRange;
      conv := new Convert(c);
      t := new Target(|Source(c)|);
      cos := map[];
      wrOffs, ret, bufs, taken, written := 0, InProgress, map[], [], [];
      new;
      for i := 0 to coroutines
        invariant forall j | j in cos :: cos[j].NotStarted?
        invariant forall j: nat :: j in cos <==> j < i
        invariant conv.sectorNum == 0 && conv.nextStatus == 0 && Untouched(t.cells, 0, |Source(c)|) && |t.cells| == |Source(c)|
        invariant wrOffs == 0 && ret.InProgress? && taken == [] && written == []
      {
        cos := cos[i := NotStarted];
      }
      ReachableInitial(c, inOrder, View());
    }

    /** The end of the loop body; with writes in order, the coroutine that waits for this one is entered. */
    method HandOn(i: nat)
      requires i in cos && Active(cos[i]) && OneAt(cos)
      modifies this`cos, this`wrOffs
      ensures View() == PassOn(inOrder, old(View()), i)
    {
      var hi := cos[i].hi;
      cos := cos[i := Idle];
      if inOrder {
        wrOffs := hi;
        if j :| j in cos && cos[j].Waiting? && cos[j].lo == wrOffs {
          ghost var before := cos;
          assert forall k | k in cos && cos[k].Waiting? && cos[k].lo == hi :: k == j;
          cos := cos[j := Woken(cos[j].lo, cos[j].hi, cos[j].st, cos[j].copying)];
          assert cos == WakeAt(before, hi);
        } else {
          assert cos == WakeAt(cos, hi);
        }
      }
    }

    /** The wait for the turn and the test of s->ret. */
    method TestTurn(i: nat)
      requires i in cos && Active(cos[i]) && OneAt(cos)
      modifies this`cos, this`wrOffs
      ensures View() == BeforeWrite(inOrder, old(View()), i)
    {
      var co := cos[i];
      if inOrder && wrOffs != co.lo && ret.InProgress? {
        cos := cos[i := Waiting(co.lo, co.hi, co.st, co.copying)];
      } else if ret.InProgress? {
        cos := cos[i := Writing(co.lo, co.hi, co.st, co.copying)];
      } else {
        HandOn(i);
      }
    }

    /** The code at the label `retry`, up to the read. */
    method BeginChunk(i: nat)
      requires i in cos && Active(cos[i]) && OneAt(cos) && cos[i].lo <= cos[i].hi
      modifies this`cos, this`wrOffs, this`bufs
      ensures View() == Begin(c, inOrder, old(View()), i) && bufs - {i} == old(bufs) - {i}
      ensures var co := old(cos)[i];
              WriteStatus(c, co.st) != co.st ==> i in bufs && bufs[i] == seq(co.hi - co.lo, _ => ZeroSector())
    {
      var co := cos[i];
      if co.st.BlkData? && !copyRange {
        cos := cos[i := Reading(co.lo, co.hi, BlkData, false)];
        return;
      }
      if c.minSparse == 0 && co.st.BlkZero? {
        bufs := bufs[i := seq(co.hi - co.lo, _ => ZeroSector())];
        assert bufs - {i} == old(bufs) - {i};
      }
      cos := cos[i := Reading(co.lo, co.hi, WriteStatus(c, co.st), co.st.BlkData?)];
      TestTurn(i);
    }

    // --------------------------------------------------------- the steps

    /** The coroutine is entered for the first time. */
    method StartStep(i: nat) returns (ghost a: Action)
      requires Valid() && i in cos && cos[i].NotStarted?
      modifies this
      ensures Valid() && a == Start(i) && Enabled(c, old(View()), a) && View() == Apply(c, inOrder, old(View()), a)
      ensures !IsError(a)
    {
      a := Start(i);
      ReachableStep(c, inOrder, View(), a);
      OthersBufs(c, View(), View().(cos := cos[i := Idle]), i, bufs, bufs);
      cos := cos[i := Idle];
    }

    /** The lock is taken; the coroutine goes on, or leaves the loop and exits. */
    method LockStep(i: nat) returns (ghost a: Action)
      requires Valid() && i in cos && cos[i].Idle? && LockFree(cos)
      modifies this
      ensures Valid() && a.i == i && Enabled(c, old(View()), a) && View() == Apply(c, inOrder, old(View()), a)
      ensures !IsError(a)
    {
      hide BufOk;
      if ret.InProgress? && conv.sectorNum < |Source(c)| {
        a := Lock(i);
        ReachableStep(c, inOrder, View(), a);
        cos := cos[i := Querying];
      } else {
        a := Leave(i);
        ReachableStep(c, inOrder, View(), a);
        cos := cos[i := Exited];
        if ret.InProgress? && forall j | j in cos :: !Running(cos[j]) {
          ret := Success;
        }
      }
      assert BufsOk(c, cos, bufs) by { NoBuf(c, old(cos), i, cos[i], bufs); }
    }

    /** With the lock: the next chunk is handed out and begun. */
    method TakeStep(i: nat, errors: bool) returns (ghost a: Action)
      requires Valid() && i in cos && cos[i].Querying?
      modifies this, conv
      ensures Valid() && a.i == i && Enabled(c, old(View()), a) && View() == Apply(c, inOrder, old(View()), a)
      ensures IsError(a) ==> errors && (a.WriteDone? || !c.salvage)
    {
      ghost var s := View();
      HasLock(c, inOrder, s, i);
      hide ImgConvert.Valid, BufsOk, ChunksInv, Reachable, Begin, ChunkOk;
      var ok, k, n, st := conv.TakeChunk(errors);
      if ok {
        a := HandOut(i, k, n, st, s);
      } else {
        a := StatusFails(i);
        ReachableStep(c, inOrder, s, a);
        NoBuf(c, cos, i, Exited, bufs);
        cos := cos[i := Exited];
        ret := Failed;
      }
    }

    method HandOut(i: nat, k: nat, n: nat, st: ChunkStatus, ghost s: State) returns (ghost a: Action)
      requires ImgConvert.Valid(c) && conv.c == c && conv.Known(conv.sectorNum) && Reachable(c, inOrder, s)
      requires ChunksInv(c, s) && !s.ret.Success? && BufsOk(c, cos, bufs) && i in cos && cos[i].Querying?
      requires k == s.sectorNum && View() == s.(sectorNum := k + n) && MayTake(c, k, n, st)
      modifies this
      ensures Valid() && a == Take(i, n, st) && Enabled(c, s, a) && View() == Apply(c, inOrder, s, a)
    {
      hide ImgConvert.Valid, BufsOk, ChunksInv, Reachable, Begin, MayTake;
      a := Take(i, n, st);
      TakenKeeps(c, s, i, n, st);
      ReachableStep(c, inOrder, s, a);
      NoBuf(c, cos, i, Reading(k, k + n, st, false), bufs);
      cos := cos[i := Reading(k, k + n, st, false)];
      taken := taken + [(k, k + n)];
      BeginAndKeep(i, Taken(s, i, n, st));
    }

    method BeginAndKeep(i: nat, ghost s: State)
      requires ImgConvert.Valid(c) && conv.c == c && s == View() && ChunksInv(c, s) && i in cos && Active(cos[i])
      requires BufsOk(c, cos, bufs)
      modifies this`cos, this`wrOffs, this`bufs
      ensures View() == Begin(c, inOrder, s, i) && BufsOk(c, cos, bufs)
    {
      assert ChunkInv(c, s, cos[i]);
      ChunksOneAt(c, s);
      hide ChunksInv, ImgConvert.Valid, BufsOk, OneAt, Begin;
      ghost var b := bufs;
      BeginChunk(i);
      BeginBuf(c, inOrder, s, i, bufs);
      BeginFrame(c, inOrder, s, i);
      OthersBufs(c, s, View(), i, b, bufs);
    }

    method TurnAndKeep(i: nat, ghost s: State, ghost b: map<nat, seq<Sector>>)
      requires s == View() && i in cos && Active(cos[i]) && OneAt(cos) && BufsOk(c, cos, b) && bufs - {i} == b - {i}
      requires HasBuf(c, s, i, bufs)
      modifies this`cos, this`wrOffs
      ensures View() == BeforeWrite(inOrder, s, i) && BufsOk(c, cos, bufs)
    {
      hide BufsOk, OneAt, BeforeWrite, HasBuf;
      BeforeWriteFrame(inOrder, s, i);
      AfterRead(c, inOrder, s, i, bufs);
      TestTurn(i);
      OthersBufs(c, s, View(), i, b, bufs);
    }

    /** convert_co_read, and on to the write. */
    method ReadStep(i: nat, errors: bool) returns (ghost a: Action)
      requires Valid() && i in cos && cos[i].Reading?
      modifies this
      ensures Valid() && a.i == i && Enabled(c, old(View()), a) && View() == Apply(c, inOrder, old(View()), a)
      ensures IsError(a) ==> errors && (a.WriteDone? || !c.salvage)
    {
      ghost var s := View();
      ghost var b := bufs;
      InHand(c, inOrder, s, i, bufs);
      hide ImgConvert.Valid, ChunksInv, Reachable, BufsOk, OneAt, BeforeWrite, AllWanted, Unspoiled;
      var co := cos[i];
      var ok, buf := CoRead(c, co.lo, co.hi - co.lo, errors);
      a := ReadDone(i, ok);
      ReachableStep(c, inOrder, s, a);
      bufs := bufs[i := buf];
      if !ok {
        ret := Failed;
      }
      assert bufs - {i} == b - {i};
      TurnAndKeep(i, View(), b);
    }

    /** Woken by the coroutine before it. */
    method ContinueStep(i: nat) returns (ghost a: Action)
      requires Valid() && i in cos && cos[i].Woken?
      modifies this
      ensures Valid() && a.i == i && Enabled(c, old(View()), a) && View() == Apply(c, inOrder, old(View()), a)
      ensures !IsError(a)
    {
      ghost var s := View();
      InHand(c, inOrder, s, i, bufs);
      hide ImgConvert.Valid, ChunksInv, Reachable, BufsOk, OneAt, BeforeWrite, AllWanted, Unspoiled;
      a := Continue(i);
      ReachableStep(c, inOrder, s, a);
      TurnAndKeep(i, s, bufs);
    }

    /** convert_co_copy_range, and what follows. */
    method CopyStep(i: nat) returns (ghost a: Action)
      requires Valid() && i in cos && cos[i].Writing? && cos[i].copying
      modifies this, t
      ensures Valid() && a.i == i && Enabled(c, old(View()), a) && View() == Apply(c, inOrder, old(View()), a)
      ensures !IsError(a)
    {
      ghost var s := View();
      InHand(c, inOrder, s, i, bufs);
      hide ImgConvert.Valid, ChunksInv, Reachable, BufsOk, BufOk, OneAt, Begin, Unspoiled, Copied, SameOutside;
      var co := cos[i];
      var ok := CoCopyRange(c, t, co.lo, co.hi - co.lo);
      if ok {
        a := Finish(i, true, s);
      } else {
        a := CopyFails(i, t.cells);
        ReachableStep(c, inOrder, s, a);
        SpoilKeeps(c, s, s.(cells := t.cells, copyRange := false), i);
        copyRange := false;
        BeginAndKeep(i, View());
      }
    }

    /** convert_co_write, and what follows. */
    method WriteStep(i: nat, errors: bool) returns (ghost a: Action)
      requires Valid() && i in cos && cos[i].Writing? && !cos[i].copying
      modifies this, t
      ensures Valid() && a.i == i && Enabled(c, old(View()), a) && View() == Apply(c, inOrder, old(View()), a)
      ensures IsError(a) ==> errors && (a.WriteDone? || !c.salvage)
    {
      ghost var s := View();
      InHand(c, inOrder, s, i, bufs);
      hide ImgConvert.Valid, ChunksInv, Reachable, BufsOk, OneAt, Unspoiled, Copied, SameOutside, ToWrite;
      var co := cos[i];
      var buf := if co.st.BlkData? then bufs[i] else [];
      var ok := CoWrite(c, t, co.lo, co.hi - co.lo, buf, co.st, errors);
      a := Finish(i, ok, s);
    }

    /** After the write: the error is recorded, and the order of writes handed on. */
    method Finish(i: nat, ok: bool, ghost s: State) returns (ghost a: Action)
      requires ImgConvert.Valid(c) && conv.c == c && conv.Known(conv.sectorNum) && Reachable(c, inOrder, s)
      requires i in cos && cos[i].Writing? && View() == s.(cells := t.cells) && BufsOk(c, cos, bufs) && OneAt(cos)
      requires Enabled(c, s, WriteDone(i, ok, t.cells))
      modifies this
      ensures Valid() && a == WriteDone(i, ok, t.cells) && View() == Apply(c, inOrder, s, a)
    {
      hide ImgConvert.Valid, Reachable, BufsOk, OneAt, Copied, SameOutside, PassOn;
      a := WriteDone(i, ok, t.cells);
      ReachableStep(c, inOrder, s, a);
      ghost var s1 := Wrote(s, i, ok, t.cells);
      PassOnFrame(inOrder, s1, i);
      PassedOn(inOrder, s1, i);
      if ok {
        written := written + [(cos[i].lo, cos[i].hi)];
      } else {
        ret := Failed;
      }
      HandOn(i);
      OthersBufs(c, s, View(), i, bufs, bufs);
    }

    /** One turn of a coroutine that does not wait for another. */
    method Step(i: nat, errors: bool) returns (ghost a: Action)
      requires Valid() && CanMove(cos, i)
      modifies this, conv, t
      ensures Valid() && a.i == i && Enabled(c, old(View()), a) && View() == Apply(c, inOrder, old(View()), a)
      ensures IsError(a) ==> errors
    {
      match cos[i]
      case NotStarted => a := StartStep(i);
      case Idle => a := LockStep(i);
      case Querying => a := TakeStep(i, errors);
      case Reading(_, _, _, _) => a := ReadStep(i, errors);
      case Woken(_, _, _, _) => a := ContinueStep(i);
      case Writing(_, _, _, copying) =>
        if copying {
          a := CopyStep(i);
        } else {
          a := WriteStep(i, errors);
        }
    }

    /** The main loop: coroutines get their turns in any order whatever.  If the result is 0 then, the target reads as the
        concatenated sources. */
    method Run(schedule: seq<nat>, errors: bool)
      requires Valid()
      modifies this, conv, t
      ensures Valid()
      ensures ret.Success? ==> Copied(c, t.cells, 0, |Source(c)|)
      ensures ret.Success? && !c.salvage ==>
                forall k: nat | k < |Source(c)| :: k < |t.cells| && Reads(c, t.cells, k) == Some(Source(c)[k])
      ensures cos != map[] && (forall i | i in cos :: cos[i].Exited?) ==> ret.Success? || ret.Failed?
      ensures ret.Failed? ==> errors || old(ret.Failed?)
    {
      for n := 0 to |schedule|
        invariant Valid() && (ret.Failed? ==> errors || old(ret.Failed?))
      {
        if CanMove(cos, schedule[n]) {
          ghost var s := View();
          ghost var a := Step(schedule[n], errors);
          RetStep(c, inOrder, s, a);
        }
      }
      ConvertIsFaithful(c, inOrder, View());
      if cos != map[] && forall i | i in cos :: cos[i].Exited? {
        ConvertDecides(c, inOrder, View());
      }
    }

    /** The main loop to its end: as long as a coroutine can move, one that can, no matter which, gets a turn.  It ends, the
        result is decided, and if it is 0 the target reads as the concatenated sources. */
    method RunToEnd(errors: bool)
      requires Valid()
      modifies this, conv, t
      ensures Valid() && cos.Keys == old(cos.Keys) && (forall i | i in cos :: cos[i].Exited?)
      ensures cos != map[] ==> ret.Success? || ret.Failed?
      ensures ret.Failed? ==> errors || old(ret.Failed?)
      ensures ret.Success? ==> Copied(c, t.cells, 0, |Source(c)|)
      ensures ret.Success? && !c.salvage ==>
                forall k: nat | k < |Source(c)| :: k < |t.cells| && Reads(c, t.cells, k) == Some(Source(c)[k])
    {
      hide Copied, Reads;
      var ready := set j | j in cos && CanMove(cos, j);
      while ready != {}
        invariant Valid() && cos.Keys == old(cos.Keys) && (ret.Failed? ==> errors || old(ret.Failed?))
        invariant ready == set j | j in cos && CanMove(cos, j)
        decreases Measure(c, View())
      {
        ghost var s := View();
        var j :| j in ready;
        ghost var a := Step(j, errors);
        RetStep(c, inOrder, s, a);
        ApplyFrame(c, inOrder, s, a);
        Lowers(c, inOrder, s, a);
        ready := set j | j in cos && CanMove(cos, j);
      }
      assert forall j: nat :: CanMove(cos, j) ==> j in ready;
      AllExited(c, inOrder, View());
      if cos != map[] {
        ConvertDecides(c, inOrder, View());
      }
      ConvertIsFaithful(c, inOrder, View());
    }
  }

  lemma Lowers(c: Config, inOrder: bool, s: State, a: Action)
    requires Reachable(c, inOrder, s) && Enabled(c, s, a)
    ensures 0 <= Measure(c, Apply(c, inOrder, s, a)) < Measure(c, s)
  {
    hide Measure;
    if inOrder {
      ReachableInOrder(c, s);
    }
    StepLowers(c, inOrder, s, a);
    ReachableStep(c, inOrder, s, a);
    ReachableInv(c, inOrder, Apply(c, inOrder, s, a));
    MeasureBound(c, Apply(c, inOrder, s, a));
  }

  lemma PassedOn(inOrder: bool, s: State, i: nat)
    requires i in s.cos && Active(s.cos[i])
    ensures PassOn(inOrder, s, i).cos[i].Idle?
  {
  }

  /** Unless there was an error, a coroutine that is to write data has it. */
  ghost predicate HasBuf(c: Config, s: State, i: nat, bufs: map<nat, seq<Sector>>)
    requires i in s.cos && Active(s.cos[i])
  {
    var co := s.cos[i];
    && (co.st.BlkZero? ==> c.minSparse > 0)
    && (s.ret.InProgress? && co.st.BlkData? && !co.copying ==>
          co.lo <= co.hi && i in bufs && |bufs[i]| == co.hi - co.lo && AllWanted(c, co.lo, bufs[i]))
  }

  /** On the way to the write the coroutine keeps its buffer. */
  lemma AfterRead(c: Config, inOrder: bool, s: State, i: nat, bufs: map<nat, seq<Sector>>)
    requires i in s.cos && Active(s.cos[i]) && HasBuf(c, s, i, bufs)
    ensures BufOk(c, BeforeWrite(inOrder, s, i).cos[i], bufs, i)
  {
    hide AllWanted;
  }

  /** A coroutine that comes to have no buffer to write. */
  lemma NoBuf(c: Config, cos: map<nat, Co>, i: nat, co: Co, bufs: map<nat, seq<Sector>>)
    requires BufsOk(c, cos, bufs) && !co.Waiting? && !co.Woken? && !co.Writing?
    ensures BufsOk(c, cos[i := co], bufs)
  {
    hide AllWanted;
    var cos' := cos[i := co];
    forall j | j in cos' ensures BufOk(c, cos'[j], bufs, j) {
      assert j != i ==> BufOk(c, cos[j], bufs, j);
    }
  }

  /** convert_do_copy with at least one coroutine and no I/O errors: it returns 0, and the target reads as the concatenated
      sources, sector by sector.  With -S 0 and without a backing file every sector of it is allocated. */
  method ConvertCleanly(c: Config, inOrder: bool, copyRange: bool, coroutines: nat) returns (x: Conversion)
    requires ImgConvert.Valid(c) && coroutines > 0
    ensures x.c == c && x.ret.Success? && |x.t.cells| == |Source(c)|
    ensures forall k: nat | k < |Source(c)| :: Reads(c, x.t.cells, k).Some? && Wanted(c, k, Reads(c, x.t.cells, k).value)
    ensures !c.salvage || c.unreadable == {} ==> forall k: nat | k < |Source(c)| :: Reads(c, x.t.cells, k) == Some(Source(c)[k])
    ensures c.minSparse == 0 && !c.targetHasBacking ==> forall k: nat | k < |Source(c)| :: x.t.cells[k].Some?
  {
    x := new Conversion(c, inOrder, copyRange, coroutines);
    x.RunToEnd(false);
    assert 0 in x.cos;
  }
}
