/**
  The coroutines of `qemu-img convert` (convert_co_do_copy and convert_do_copy in
  qemu/qemu-img.c) as a state machine: one step for what a coroutine does between two
  points at which others can run.
 */
module ImgConvertRun {
  import opened Wrappers
  import opened ImgConvert

  /** Where a coroutine is, which chunk it has taken, with what status, and whether it is to be copied by the block layer
      (copy_range) instead of being read and written. */
  datatype Co =
    | NotStarted
    | Idle                             // about to take the lock
    | Querying                         // has the lock
    | Reading(lo: nat, hi: nat, st: ChunkStatus, copying: bool)
    | Waiting(lo: nat, hi: nat, st: ChunkStatus, copying: bool)        // for the write before its own
    | Woken(lo: nat, hi: nat, st: ChunkStatus, copying: bool)
    | Writing(lo: nat, hi: nat, st: ChunkStatus, copying: bool)
    | Exited

  predicate Active(co: Co) {
    co.Reading? || co.Waiting? || co.Woken? || co.Writing?
  }

  predicate Running(co: Co) {
    !co.NotStarted? && !co.Exited?
  }

  datatype Result = InProgress | Failed | Success

  type Chunk = (nat, nat)

  /** `wrOffs` is where the next write in order begins; `taken` and `written` record the chunks that were handed out and
      those that were written, in that order. */
  datatype State = State(cos: map<nat, Co>, sectorNum: nat, wrOffs: nat, ret: Result, copyRange: bool, cells: Cells,
                         taken: seq<Chunk>, written: seq<Chunk>)

  datatype Action =
    | Start(i: nat)
    | Lock(i: nat)
    | Take(i: nat, n: nat, st: ChunkStatus)
    | StatusFails(i: nat)
    | Leave(i: nat)
    | ReadDone(i: nat, ok: bool)
    | Continue(i: nat)
    | WriteDone(i: nat, ok: bool, after: Cells)
    | CopyFails(i: nat, after: Cells)

  predicate LockFree(cos: map<nat, Co>) {
    forall j | j in cos :: !cos[j].Querying?
  }

  /** There is more to be handed out, as far as the coroutine that has just got the lock can see. */
  predicate More(c: Config, s: State) {
    s.ret.InProgress? && s.sectorNum < |Source(c)|
  }

  /** A chunk that convert_iteration_sectors may hand out. */
  ghost predicate MayTake(c: Config, k: nat, n: nat, st: ChunkStatus) {
    0 < n && ChunkOk(c, k, k + n, st) && FitsBuffer(c, n, st)
  }

  /** What is to be read, or zeroed in memory, fits the buffer. */
  predicate FitsBuffer(c: Config, n: int, st: ChunkStatus) {
    st.BlkData? || (c.minSparse == 0 && st.BlkZero?) ==> n <= c.bufSectors
  }

  /** The lock is held while the block status is asked for, which may take a while: a chunk can be handed out after another
      coroutine has failed. */
  ghost predicate Enabled(c: Config, s: State, a: Action) {
    && a.i in s.cos
    && var co := s.cos[a.i];
       match a
       case Start(_) => co.NotStarted?
       case Lock(_) => co.Idle? && LockFree(s.cos) && More(c, s)
       case Take(_, n, st) => co.Querying? && MayTake(c, s.sectorNum, n, st)
       case StatusFails(_) => co.Querying?
       case Leave(_) => co.Idle? && LockFree(s.cos) && !More(c, s)
       case ReadDone(_, _) => co.Reading?
       case Continue(_) => co.Woken?
       case WriteDone(_, ok, after) =>
         co.Writing? && SameOutside(s.cells, after, co.lo, co.hi) && (ok ==> Copied(c, after, co.lo, co.hi))
       case CopyFails(_, after) =>
         co.Writing? && co.copying && SameOutside(s.cells, after, co.lo, co.hi) && Unspoiled(c, after, co.lo, co.hi)
  }

  /** A coroutine that is done with its chunk enters the one that waits for it. */
  function WakeAt(cos: map<nat, Co>, k: nat): map<nat, Co> {
    map i | i in cos ::
      if cos[i].Waiting? && cos[i].lo == k then Woken(cos[i].lo, cos[i].hi, cos[i].st, cos[i].copying) else cos[i]
  }

  /** The end of the loop body, after the write or instead of it. */
  function PassOn(inOrder: bool, s: State, i: nat): State
    requires i in s.cos && Active(s.cos[i])
  {
    var cos := s.cos[i := Idle];
    if inOrder then s.(cos := WakeAt(cos, s.cos[i].hi), wrOffs := s.cos[i].hi) else s.(cos := cos)
  }

  /** The test before the write: wait for the turn, write, or, after an error, hand on at once. */
  function BeforeWrite(inOrder: bool, s: State, i: nat): State
    requires i in s.cos && Active(s.cos[i])
  {
    var co := s.cos[i];
    if inOrder && s.wrOffs != co.lo && s.ret.InProgress? then
      s.(cos := s.cos[i := Waiting(co.lo, co.hi, co.st, co.copying)])
    else if s.ret.InProgress? then s.(cos := s.cos[i := Writing(co.lo, co.hi, co.st, co.copying)])
    else PassOn(inOrder, s, i)
  }

  /** From the label `retry`: data is left to the block layer or read; without sparse areas a zero chunk becomes a buffer of
      zeroes. */
  function Begin(c: Config, inOrder: bool, s: State, i: nat): State
    requires i in s.cos && Active(s.cos[i])
  {
    var co := s.cos[i];
    if co.st.BlkData? && !s.copyRange then s.(cos := s.cos[i := Reading(co.lo, co.hi, BlkData, false)])
    else BeforeWrite(inOrder, s.(cos := s.cos[i := Reading(co.lo, co.hi, WriteStatus(c, co.st), co.st.BlkData?)]), i)
  }

  function WriteStatus(c: Config, st: ChunkStatus): ChunkStatus {
    if c.minSparse == 0 && st.BlkZero? then BlkData else st
  }

  /** The chunk has been handed out. */
  function Taken(s: State, i: nat, n: nat, st: ChunkStatus): State
    requires i in s.cos
  {
    s.(cos := s.cos[i := Reading(s.sectorNum, s.sectorNum + n, st, false)], sectorNum := s.sectorNum + n,
       taken := s.taken + [(s.sectorNum, s.sectorNum + n)])
  }

  /** The write has ended. */
  function Wrote(s: State, i: nat, ok: bool, after: Cells): State
    requires i in s.cos && Active(s.cos[i])
  {
    s.(cells := after, ret := if ok then s.ret else Failed,
       written := if ok then s.written + [(s.cos[i].lo, s.cos[i].hi)] else s.written)
  }

  ghost function Apply(c: Config, inOrder: bool, s: State, a: Action): State
    requires Enabled(c, s, a)
  {
    match a
    case Start(i) => s.(cos := s.cos[i := Idle])
    case Lock(i) => s.(cos := s.cos[i := Querying])
    case Take(i, n, st) => Begin(c, inOrder, Taken(s, i, n, st), i)
    case StatusFails(i) => s.(cos := s.cos[i := Exited], ret := Failed)
    case Leave(i) =>
      var cos := s.cos[i := Exited];
      s.(cos := cos, ret := if s.ret.InProgress? && (forall j | j in cos :: !Running(cos[j])) then Success else s.ret)
    case ReadDone(i, ok) => BeforeWrite(inOrder, if ok then s else s.(ret := Failed), i)
    case Continue(i) => BeforeWrite(inOrder, s, i)
    case WriteDone(i, ok, after) => PassOn(inOrder, Wrote(s, i, ok, after), i)
    case CopyFails(i, after) => Begin(c, inOrder, s.(cells := after, copyRange := false), i)
  }

  /** What becomes of a chunk that has been handed out while there is no error: data is read, or left to the block layer if
      that is on; anything else, or what need not be read, waits for its turn or is written. */
  lemma TakeMeans(c: Config, inOrder: bool, s: State, i: nat, n: nat, st: ChunkStatus)
    requires Enabled(c, s, Take(i, n, st)) && s.ret.InProgress?
    ensures var s' := Apply(c, inOrder, s, Take(i, n, st));
            var co := s'.cos[i];
            && s'.sectorNum == s.sectorNum + n && Active(co) && co.lo == s.sectorNum && co.hi == s.sectorNum + n
            && (co.Reading? <==> st.BlkData? && !s.copyRange)
            && (co.Waiting? <==> !co.Reading? && inOrder && s.wrOffs != s.sectorNum)
            && (co.copying <==> st.BlkData? && s.copyRange)
            && co.st == (if st.BlkZero? && c.minSparse == 0 then BlkData else st)
            && s' == s.(cos := s'.cos, sectorNum := s'.sectorNum, taken := s.taken + [(co.lo, co.hi)])
  {
  }

  ghost predicate Initial(c: Config, s: State) {
    && (forall i | i in s.cos :: s.cos[i].NotStarted?)
    && s.sectorNum == 0 && s.wrOffs == 0 && s.ret.InProgress? && s.taken == [] && s.written == []
    && |s.cells| == |Source(c)| && Untouched(s.cells, 0, |s.cells|)
  }

  ghost predicate IsRun(c: Config, inOrder: bool, run: seq<State>, actions: seq<Action>) {
    && |run| == |actions| + 1 && Initial(c, run[0])
    && forall k | 0 <= k < |actions| :: Enabled(c, run[k], actions[k]) && run[k + 1] == Apply(c, inOrder, run[k], actions[k])
  }

  ghost predicate Reachable(c: Config, inOrder: bool, s: State) {
    exists run, actions :: IsRun(c, inOrder, run, actions) && run[|actions|] == s
  }

  lemma ReachableInitial(c: Config, inOrder: bool, s: State)
    requires Initial(c, s)
    ensures Reachable(c, inOrder, s)
  {
    var actions: seq<Action> := [];
    assert IsRun(c, inOrder, [s], actions) && [s][|actions|] == s;
  }

  lemma ReachableStep(c: Config, inOrder: bool, s: State, a: Action)
    requires Reachable(c, inOrder, s) && Enabled(c, s, a)
    ensures Reachable(c, inOrder, Apply(c, inOrder, s, a))
  {
    hide Enabled, Apply, Initial;
    var run, actions :| IsRun(c, inOrder, run, actions) && run[|actions|] == s;
    var s' := Apply(c, inOrder, s, a);
    var run', actions' := run + [s'], actions + [a];
    assert IsRun(c, inOrder, run', actions') && run'[|actions'|] == s';
  }

  // ---------------------------------------------------------- invariants

  /** The chunks follow each other without gap or overlap from 0 to `end`. */
  predicate Tiles(chunks: seq<Chunk>, end: nat) {
    if chunks == [] then end == 0
    else
      var last := chunks[|chunks| - 1];
      last.0 < last.1 == end && Tiles(chunks[..|chunks| - 1], last.0)
  }

  lemma TilesSnoc(chunks: seq<Chunk>, lo: nat, hi: nat)
    requires Tiles(chunks, lo) && lo < hi
    ensures Tiles(chunks + [(lo, hi)], hi)
  {
    assert (chunks + [(lo, hi)])[..|chunks|] == chunks;
  }

  /** A taken chunk lies below `sectorNum`, its status is true, and nothing wrong has been written there. */
  ghost predicate ChunkInv(c: Config, s: State, co: Co) {
    Active(co) ==>
      && co.lo < co.hi <= s.sectorNum && ChunkOk(c, co.lo, co.hi, co.st) && FitsBuffer(c, co.hi - co.lo, co.st)
      && Unspoiled(c, s.cells, co.lo, co.hi) && (co.copying ==> co.st.BlkData?)
  }

  predicate Apart(a: Co, b: Co) {
    Active(a) && Active(b) ==> a.hi <= b.lo || b.hi <= a.lo
  }

  predicate Holds(co: Co, k: nat) {
    Active(co) && co.lo <= k < co.hi
  }

  ghost predicate Held(cos: map<nat, Co>, k: nat) {
    exists i :: i in cos && Holds(cos[i], k)
  }

  /** A sector that was handed out reads as it should, or somebody has it in hand, or there was an error. */
  ghost predicate SectorInv(c: Config, s: State, k: nat)
    requires k < |s.cells|
  {
    s.ret.Failed? || Held(s.cos, k) ||
    (k < |Source(c)| && Reads(c, s.cells, k).Some? && Wanted(c, k, Reads(c, s.cells, k).value) &&
     (Full(c) ==> s.cells[k].Some?))
  }

  ghost predicate ChunksInv(c: Config, s: State) {
    && |s.cells| == |Source(c)| && s.sectorNum <= |Source(c)|
    && (forall i | i in s.cos :: ChunkInv(c, s, s.cos[i]))
    && (forall i, j | i in s.cos && j in s.cos && i != j :: Apart(s.cos[i], s.cos[j]))
    && (forall k: nat | k < s.sectorNum :: SectorInv(c, s, k))
    && Untouched(s.cells, s.sectorNum, |s.cells|)
    && Tiles(s.taken, s.sectorNum)
    && (s.ret.Success? ==> s.sectorNum == |Source(c)| && forall i | i in s.cos :: !Active(s.cos[i]))
  }

  /** Only data is read. */
  ghost predicate ReadInv(s: State) {
    forall i | i in s.cos && s.cos[i].Reading? :: s.cos[i].st.BlkData?
  }

  /** At most one coroutine has the lock, and there is something left for it. */
  ghost predicate LockInv(c: Config, s: State) {
    && (forall i, j | i in s.cos && j in s.cos && s.cos[i].Querying? && s.cos[j].Querying? :: i == j)
    && (forall i | i in s.cos && s.cos[i].Querying? :: s.sectorNum < |Source(c)| && !s.ret.Success?)
  }

  /** The last coroutine to exit has decided the result. */
  ghost predicate EndInv(s: State) {
    (exists i :: i in s.cos && s.cos[i].Exited?) && (forall i | i in s.cos :: !Running(s.cos[i])) ==> !s.ret.InProgress?
  }

  ghost predicate Inv(c: Config, s: State) {
    ChunksInv(c, s) && ReadInv(s) && LockInv(c, s) && EndInv(s)
  }

  /** The same chunk, or none in both. */
  predicate SamePlace(a: Co, b: Co) {
    (Active(a) <==> Active(b)) && (Active(a) ==> b.lo == a.lo && b.hi == a.hi)
  }

  /** ... treated in a way that its status allows. */
  predicate SameChunk(c: Config, a: Co, b: Co) {
    && SamePlace(a, b)
    && (Active(a) ==> (b.st == a.st || b.st == WriteStatus(c, a.st)) && (b.copying ==> b.st.BlkData?))
  }

  /** Changing where a coroutine is with its chunk. */
  lemma MoveKeeps(c: Config, s: State, s': State)
    requires ChunksInv(c, s) && s'.cells == s.cells && s'.sectorNum == s.sectorNum && s'.taken == s.taken
    requires s'.cos.Keys == s.cos.Keys && forall i | i in s.cos :: SameChunk(c, s.cos[i], s'.cos[i])
    requires s'.ret == s.ret || s'.ret.Failed?
    ensures ChunksInv(c, s')
  {
    forall i | i in s'.cos ensures ChunkInv(c, s', s'.cos[i]) {
      assert ChunkInv(c, s, s.cos[i]);
    }
    forall i, j | i in s'.cos && j in s'.cos && i != j ensures Apart(s'.cos[i], s'.cos[j]) {
      assert Apart(s.cos[i], s.cos[j]);
    }
    forall k: nat | k < s'.sectorNum ensures SectorInv(c, s', k) {
      assert SectorInv(c, s, k);
      if Held(s.cos, k) {
        var i :| i in s.cos && Holds(s.cos[i], k);
        assert Holds(s'.cos[i], k);
      }
    }
  }

  lemma TakenKeeps(c: Config, s: State, i: nat, n: nat, st: ChunkStatus)
    requires ChunksInv(c, s) && i in s.cos && !Active(s.cos[i]) && !s.ret.Success? && MayTake(c, s.sectorNum, n, st)
    ensures ChunksInv(c, Taken(s, i, n, st))
  {
    var s' := Taken(s, i, n, st);
    TilesSnoc(s.taken, s.sectorNum, s.sectorNum + n);
    forall j | j in s'.cos ensures ChunkInv(c, s', s'.cos[j]) {
      assert ChunkInv(c, s, s.cos[j]);
    }
    forall k: nat | k < s'.sectorNum ensures SectorInv(c, s', k) {
      if k < s.sectorNum {
        assert SectorInv(c, s, k);
        if Held(s.cos, k) {
          var j :| j in s.cos && Holds(s.cos[j], k);
          assert Holds(s'.cos[j], k);
        }
      } else {
        assert Holds(s'.cos[i], k);
      }
    }
  }

  /** Part of the chunk has been written, rightly. */
  lemma SpoilKeeps(c: Config, s: State, s': State, i: nat)
    requires ChunksInv(c, s) && i in s.cos && Active(s.cos[i]) && s' == s.(cells := s'.cells, copyRange := s'.copyRange)
    requires SameOutside(s.cells, s'.cells, s.cos[i].lo, s.cos[i].hi) && Unspoiled(c, s'.cells, s.cos[i].lo, s.cos[i].hi)
    ensures ChunksInv(c, s')
  {
    assert ChunkInv(c, s, s.cos[i]);
    forall j | j in s'.cos ensures ChunkInv(c, s', s'.cos[j]) {
      assert ChunkInv(c, s, s.cos[j]) && (j != i ==> Apart(s.cos[i], s.cos[j]));
    }
    forall k: nat | k < s'.sectorNum ensures SectorInv(c, s', k) {
      assert SectorInv(c, s, k);
      assert Holds(s.cos[i], k) || s'.cells[k] == s.cells[k];
    }
  }

  /** A chunk is dropped: it reads as it should now, or there was an error. */
  lemma DropKeeps(c: Config, s: State, s': State, i: nat)
    requires ChunksInv(c, s) && i in s.cos && Active(s.cos[i])
    requires s'.sectorNum == s.sectorNum && s'.taken == s.taken && !s'.ret.Success?
    requires s.ret.Failed? ==> s'.ret.Failed?
    requires SameOutside(s.cells, s'.cells, s.cos[i].lo, s.cos[i].hi)
    requires s'.ret.Failed? || Copied(c, s'.cells, s.cos[i].lo, s.cos[i].hi)
    requires s'.cos.Keys == s.cos.Keys && !Active(s'.cos[i])
    requires forall j | j in s.cos && j != i :: SameChunk(c, s.cos[j], s'.cos[j])
    ensures ChunksInv(c, s')
  {
    assert ChunkInv(c, s, s.cos[i]);
    forall j | j in s'.cos ensures ChunkInv(c, s', s'.cos[j]) {
      assert j != i ==> ChunkInv(c, s, s.cos[j]) && Apart(s.cos[i], s.cos[j]);
    }
    forall j, k | j in s'.cos && k in s'.cos && j != k ensures Apart(s'.cos[j], s'.cos[k]) {
      assert Apart(s.cos[j], s.cos[k]);
    }
    forall k: nat | k < s'.sectorNum ensures SectorInv(c, s', k) {
      DropSector(c, s, s', i, k);
    }
  }

  lemma DropSector(c: Config, s: State, s': State, i: nat, k: nat)
    requires i in s.cos && Active(s.cos[i]) && |s.cells| == |s'.cells| == |Source(c)| && k < |s.cells|
    requires s.ret.Failed? ==> s'.ret.Failed?
    requires SameOutside(s.cells, s'.cells, s.cos[i].lo, s.cos[i].hi)
    requires s'.ret.Failed? || Copied(c, s'.cells, s.cos[i].lo, s.cos[i].hi)
    requires s'.cos.Keys == s.cos.Keys && forall j | j in s.cos && j != i :: SamePlace(s.cos[j], s'.cos[j])
    requires SectorInv(c, s, k)
    ensures SectorInv(c, s', k)
  {
    if !s'.ret.Failed? && !Holds(s.cos[i], k) {
      if Held(s.cos, k) {
        var j :| j in s.cos && Holds(s.cos[j], k);
        assert Holds(s'.cos[j], k);
      } else {
        assert Reads(c, s'.cells, k) == Reads(c, s.cells, k);
      }
    }
  }

  lemma WakePlaces(c: Config, cos: map<nat, Co>, k: nat)
    requires forall j | j in cos && Active(cos[j]) :: cos[j].copying ==> cos[j].st.BlkData?
    ensures WakeAt(cos, k).Keys == cos.Keys && forall j | j in cos :: SameChunk(c, cos[j], WakeAt(cos, k)[j])
  {
  }

  lemma CopyingData(c: Config, s: State)
    requires ChunksInv(c, s)
    ensures forall j | j in s.cos && Active(s.cos[j]) :: s.cos[j].copying ==> s.cos[j].st.BlkData?
  {
    forall j | j in s.cos && Active(s.cos[j]) ensures s.cos[j].copying ==> s.cos[j].st.BlkData? {
      assert ChunkInv(c, s, s.cos[j]);
    }
  }

  /** Handing on drops the chunk. */
  lemma PassOnKeeps(c: Config, inOrder: bool, s: State, s1: State, i: nat)
    requires ChunksInv(c, s) && i in s.cos && Active(s.cos[i]) && s1.cos == s.cos && s1.sectorNum == s.sectorNum
    requires s1.taken == s.taken && !s1.ret.Success? && (s.ret.Failed? ==> s1.ret.Failed?)
    requires SameOutside(s.cells, s1.cells, s.cos[i].lo, s.cos[i].hi)
    requires s1.ret.Failed? || Copied(c, s1.cells, s.cos[i].lo, s.cos[i].hi)
    ensures ChunksInv(c, PassOn(inOrder, s1, i))
  {
    hide ChunksInv;
    CopyingData(c, s);
    WakePlaces(c, s.cos[i := Idle], s.cos[i].hi);
    DropKeeps(c, s, PassOn(inOrder, s1, i), i);
  }

  lemma BeforeWriteKeeps(c: Config, inOrder: bool, s: State, s1: State, i: nat)
    requires ChunksInv(c, s) && i in s.cos && Active(s.cos[i]) && (s1 == s || s1 == s.(ret := Failed))
    ensures ChunksInv(c, BeforeWrite(inOrder, s1, i))
  {
    NotYet(c, s, i);
    CopyingData(c, s);
    hide ChunksInv;
    if s1.ret.InProgress? {
      MoveKeeps(c, s, BeforeWrite(inOrder, s1, i));
    } else {
      PassOnKeeps(c, inOrder, s, s1, i);
    }
  }

  lemma BeginKeeps(c: Config, inOrder: bool, s: State, i: nat)
    requires ChunksInv(c, s) && i in s.cos && Active(s.cos[i])
    ensures ChunksInv(c, Begin(c, inOrder, s, i))
  {
    CopyingData(c, s);
    hide ChunksInv;
    var co := s.cos[i];
    if co.st.BlkData? && !s.copyRange {
      MoveKeeps(c, s, Begin(c, inOrder, s, i));
    } else {
      var s1 := s.(cos := s.cos[i := Reading(co.lo, co.hi, WriteStatus(c, co.st), co.st.BlkData?)]);
      MoveKeeps(c, s, s1);
      BeforeWriteKeeps(c, inOrder, s1, s1, i);
    }
  }

  lemma NotYet(c: Config, s: State, i: nat)
    requires ChunksInv(c, s) && i in s.cos && Active(s.cos[i])
    ensures !s.ret.Success?
  {
  }

  lemma LeaveKeeps(c: Config, s: State, i: nat)
    requires ChunksInv(c, s) && Enabled(c, s, Leave(i))
    ensures ChunksInv(c, Apply(c, true, s, Leave(i)))
  {
    var s' := Apply(c, true, s, Leave(i));
    CopyingData(c, s);
    MoveKeeps(c, s, s'.(ret := s.ret));
    if s'.ret != s.ret {
      forall j | j in s'.cos ensures !Active(s'.cos[j]) {
        assert !Running(s'.cos[j]);
      }
      forall j | j in s'.cos ensures ChunkInv(c, s', s'.cos[j]) {
      }
      forall k: nat | k < s'.sectorNum ensures SectorInv(c, s', k) {
        assert SectorInv(c, s'.(ret := s.ret), k);
      }
    }
  }

  lemma ChunksStep(c: Config, inOrder: bool, s: State, a: Action)
    requires ChunksInv(c, s) && LockInv(c, s) && Enabled(c, s, a)
    ensures ChunksInv(c, Apply(c, inOrder, s, a))
  {
    CopyingData(c, s);
    hide ChunksInv, Begin, BeforeWrite, PassOn, Copied, SameOutside, Unspoiled, MayTake;
    match a
    case Start(i) => MoveKeeps(c, s, Apply(c, inOrder, s, a));
    case Lock(i) => MoveKeeps(c, s, Apply(c, inOrder, s, a));
    case Take(i, n, st) =>
      TakenKeeps(c, s, i, n, st);
      BeginKeeps(c, inOrder, Taken(s, i, n, st), i);
    case StatusFails(i) => MoveKeeps(c, s, Apply(c, inOrder, s, a));
    case Leave(i) => LeaveKeeps(c, s, i);
    case ReadDone(i, ok) => BeforeWriteKeeps(c, inOrder, s, if ok then s else s.(ret := Failed), i);
    case Continue(i) => BeforeWriteKeeps(c, inOrder, s, s, i);
    case WriteDone(i, ok, after) =>
      NotYet(c, s, i);
      PassOnKeeps(c, inOrder, s, Wrote(s, i, ok, after), i);
    case CopyFails(i, after) =>
      SpoilKeeps(c, s, s.(cells := after, copyRange := false), i);
      BeginKeeps(c, inOrder, s.(cells := after, copyRange := false), i);
  }

  /** The others keep their place, but for one that is woken. */
  predicate OthersSame(s: State, s': State, i: nat) {
    && s'.cos.Keys == s.cos.Keys
    && forall j | j in s.cos && j != i ::
         || s'.cos[j] == s.cos[j]
         || (s.cos[j].Waiting? && s'.cos[j] == Woken(s.cos[j].lo, s.cos[j].hi, s.cos[j].st, s.cos[j].copying))
  }

  predicate MovedOn(s: State, s': State, i: nat) {
    && OthersSame(s, s', i) && s'.sectorNum == s.sectorNum && s'.ret == s.ret
    && i in s'.cos && Running(s'.cos[i]) && !s'.cos[i].Querying? && (s'.cos[i].Reading? ==> s'.cos[i].st.BlkData?)
  }

  lemma PassOnFrame(inOrder: bool, s: State, i: nat)
    requires i in s.cos && Active(s.cos[i])
    ensures MovedOn(s, PassOn(inOrder, s, i), i)
  {
  }

  /** What moving on with a chunk leaves alone. */
  lemma BeforeWriteFrame(inOrder: bool, s: State, i: nat)
    requires i in s.cos && Active(s.cos[i])
    ensures MovedOn(s, BeforeWrite(inOrder, s, i), i)
  {
    PassOnFrame(inOrder, s, i);
    hide PassOn;
  }

  lemma BeginFrame(c: Config, inOrder: bool, s: State, i: nat)
    requires i in s.cos && Active(s.cos[i])
    ensures MovedOn(s, Begin(c, inOrder, s, i), i)
  {
    var co := s.cos[i];
    BeforeWriteFrame(inOrder, s.(cos := s.cos[i := Reading(co.lo, co.hi, WriteStatus(c, co.st), co.st.BlkData?)]), i);
    hide BeforeWrite;
  }

  /** What a step leaves alone. */
  lemma ApplyFrame(c: Config, inOrder: bool, s: State, a: Action)
    requires Enabled(c, s, a)
    ensures var s' := Apply(c, inOrder, s, a);
            && OthersSame(s, s', a.i)
            && (a.Lock? <==> s'.cos[a.i].Querying?)
            && (s'.sectorNum == s.sectorNum || a.Take?)
            && (s'.ret.Success? ==> s.ret.Success? || a.Leave?)
            && (s'.cos[a.i].Reading? ==> s'.cos[a.i].st.BlkData?)
            && (s'.cos[a.i].Exited? <==> a.Leave? || a.StatusFails?) && (!s'.cos[a.i].Exited? ==> Running(s'.cos[a.i]))
  {
    hide Copied, Unspoiled, SameOutside, MayTake, More, Begin, BeforeWrite, PassOn;
    match a
    case Take(i, n, st) => BeginFrame(c, inOrder, Taken(s, i, n, st), i);
    case ReadDone(i, ok) => BeforeWriteFrame(inOrder, if ok then s else s.(ret := Failed), i);
    case Continue(i) => BeforeWriteFrame(inOrder, s, i);
    case WriteDone(i, ok, after) => PassOnFrame(inOrder, Wrote(s, i, ok, after), i);
    case CopyFails(i, after) => BeginFrame(c, inOrder, s.(cells := after, copyRange := false), i);
    case _ =>
  }

  lemma ReadKept(s: State, s': State, i: nat)
    requires ReadInv(s) && OthersSame(s, s', i) && i in s'.cos && (s'.cos[i].Reading? ==> s'.cos[i].st.BlkData?)
    ensures ReadInv(s')
  {
  }

  /** Somebody gets the lock. */
  lemma LockTaken(c: Config, s: State, s': State, i: nat)
    requires OthersSame(s, s', i) && LockFree(s.cos) && s'.sectorNum < |Source(c)| && !s'.ret.Success?
    ensures LockInv(c, s')
  {
  }

  /** Nobody gets the lock; a chunk is handed out, or the result becomes a success, only when nobody has it any more. */
  lemma LockKept(c: Config, s: State, s': State, i: nat)
    requires LockInv(c, s) && OthersSame(s, s', i) && i in s.cos && !s'.cos[i].Querying?
    requires s'.sectorNum == s.sectorNum || s.cos[i].Querying?
    requires s'.ret.Success? ==> s.ret.Success? || LockFree(s.cos)
    ensures LockInv(c, s')
  {
  }

  lemma LockStep(c: Config, inOrder: bool, s: State, a: Action)
    requires LockInv(c, s) && ReadInv(s) && Enabled(c, s, a)
    ensures LockInv(c, Apply(c, inOrder, s, a)) && ReadInv(Apply(c, inOrder, s, a))
  {
    ApplyFrame(c, inOrder, s, a);
    var s' := Apply(c, inOrder, s, a);
    hide LockInv, ReadInv, OthersSame, Begin, BeforeWrite, PassOn, Copied, Unspoiled, SameOutside, MayTake;
    ReadKept(s, s', a.i);
    if a.Lock? {
      LockTaken(c, s, s', a.i);
    } else {
      LockKept(c, s, s', a.i);
    }
  }

  lemma EndStep(c: Config, inOrder: bool, s: State, a: Action)
    requires Enabled(c, s, a)
    ensures EndInv(Apply(c, inOrder, s, a))
  {
    ApplyFrame(c, inOrder, s, a);
    hide Copied, Unspoiled, SameOutside, MayTake, Begin, BeforeWrite, PassOn;
    var s' := Apply(c, inOrder, s, a);
    if !a.Leave? && !a.StatusFails? {
      assert Running(s'.cos[a.i]);
    }
  }

  lemma StepKeeps(c: Config, inOrder: bool, s: State, a: Action)
    requires Inv(c, s) && Enabled(c, s, a)
    ensures Inv(c, Apply(c, inOrder, s, a))
  {
    ChunksStep(c, inOrder, s, a);
    LockStep(c, inOrder, s, a);
    EndStep(c, inOrder, s, a);
  }

  lemma InitialInv(c: Config, s: State)
    requires Initial(c, s)
    ensures Inv(c, s)
  {
  }

  lemma {:induction false} RunKeeps(c: Config, inOrder: bool, run: seq<State>, actions: seq<Action>, k: nat)
    requires IsRun(c, inOrder, run, actions) && k <= |actions|
    ensures Inv(c, run[k])
  {
    hide Inv, Apply, Enabled, Initial;
    if k == 0 {
      InitialInv(c, run[0]);
    } else {
      RunKeeps(c, inOrder, run, actions, k - 1);
      StepKeeps(c, inOrder, run[k - 1], actions[k - 1]);
    }
  }

  lemma ReachableInv(c: Config, inOrder: bool, s: State)
    requires Reachable(c, inOrder, s)
    ensures Inv(c, s)
  {
    hide Inv;
    var run, actions :| IsRun(c, inOrder, run, actions) && run[|actions|] == s;
    RunKeeps(c, inOrder, run, actions, |actions|);
  }

  /** Whatever the schedule, a conversion that ends with 0 leaves a target that reads as the concatenated sources, and the
      chunks that were handed out tile the image. */
  lemma ConvertIsFaithful(c: Config, inOrder: bool, s: State)
    requires Reachable(c, inOrder, s)
    ensures s.ret.Success? ==> Copied(c, s.cells, 0, |Source(c)|)
    ensures s.ret.Success? && !c.salvage ==> forall k: nat | k < |Source(c)| :: Reads(c, s.cells, k) == Some(Source(c)[k])
    ensures Tiles(s.taken, s.sectorNum) && s.sectorNum <= |Source(c)|
  {
    ReachableInv(c, inOrder, s);
    if s.ret.Success? {
      forall k: nat | k < |Source(c)|
        ensures Reads(c, s.cells, k).Some? && Wanted(c, k, Reads(c, s.cells, k).value) && (Full(c) ==> s.cells[k].Some?)
      {
        assert SectorInv(c, s, k);
      }
    }
  }

  /** A step that reports an error. */
  predicate IsError(a: Action) {
    a.StatusFails? || (a.ReadDone? && !a.ok) || (a.WriteDone? && !a.ok)
  }

  lemma BeforeWriteRet(c: Config, inOrder: bool, s: State, i: nat)
    requires i in s.cos && Active(s.cos[i])
    ensures BeforeWrite(inOrder, s, i).ret == s.ret && Begin(c, inOrder, s, i).ret == s.ret && PassOn(inOrder, s, i).ret == s.ret
  {
  }

  lemma RetStep(c: Config, inOrder: bool, s: State, a: Action)
    requires Enabled(c, s, a)
    ensures Apply(c, inOrder, s, a).ret.Failed? <==> s.ret.Failed? || IsError(a)
  {
    hide Copied, Unspoiled, SameOutside, MayTake, Begin, BeforeWrite, PassOn;
    match a
    case Take(i, n, st) => BeforeWriteRet(c, inOrder, Taken(s, i, n, st), i);
    case ReadDone(i, ok) => BeforeWriteRet(c, inOrder, if ok then s else s.(ret := Failed), i);
    case Continue(i) => BeforeWriteRet(c, inOrder, s, i);
    case WriteDone(i, ok, after) => BeforeWriteRet(c, inOrder, Wrote(s, i, ok, after), i);
    case CopyFails(i, after) => BeforeWriteRet(c, inOrder, s.(cells := after, copyRange := false), i);
    case _ =>
  }

  /** The result is an error exactly if some step has reported one; a failed copy_range, which is tried again in the ordinary
      way, is none. */
  lemma {:induction false} FailsExactly(c: Config, inOrder: bool, run: seq<State>, actions: seq<Action>, k: nat)
    requires IsRun(c, inOrder, run, actions) && k <= |actions|
    ensures run[k].ret.Failed? <==> exists j :: 0 <= j < k && IsError(actions[j])
  {
    hide Apply, Enabled;
    if k > 0 {
      FailsExactly(c, inOrder, run, actions, k - 1);
      RetStep(c, inOrder, run[k - 1], actions[k - 1]);
    }
  }

  /** A conversion in which nothing fails and whose coroutines have all exited returns 0, and so its target reads as the
      concatenated sources. */
  lemma NoErrorSucceeds(c: Config, inOrder: bool, run: seq<State>, actions: seq<Action>)
    requires IsRun(c, inOrder, run, actions) && forall a | a in actions :: !IsError(a)
    requires run[|actions|].cos != map[] && forall i | i in run[|actions|].cos :: run[|actions|].cos[i].Exited?
    ensures run[|actions|].ret.Success? && Copied(c, run[|actions|].cells, 0, |Source(c)|)
  {
    FailsExactly(c, inOrder, run, actions, |actions|);
    assert Reachable(c, inOrder, run[|actions|]);
    ConvertDecides(c, inOrder, run[|actions|]);
    ConvertIsFaithful(c, inOrder, run[|actions|]);
  }

  /** When every coroutine has exited, the result is decided. */
  lemma ConvertDecides(c: Config, inOrder: bool, s: State)
    requires Reachable(c, inOrder, s) && s.cos != map[] && forall i | i in s.cos :: s.cos[i].Exited?
    ensures s.ret.Success? || s.ret.Failed?
  {
    ReachableInv(c, inOrder, s);
    var i :| i in s.cos;
    assert s.cos[i].Exited?;
  }

  // ------------------------------------------------------ writes in order

  function End(chunks: seq<Chunk>): nat {
    if chunks == [] then 0 else chunks[|chunks| - 1].1
  }

  /** Somebody has the chunk that ends at `k`. */
  ghost predicate Before(cos: map<nat, Co>, k: nat) {
    exists j :: j in cos && Active(cos[j]) && cos[j].hi == k
  }

  predicate TurnOk(s: State, co: Co) {
    && (Active(co) && s.ret.InProgress? ==> s.wrOffs <= co.lo)
    && (co.Writing? ==> co.lo == End(s.written))
    && (co.Woken? && s.ret.InProgress? ==> co.lo == s.wrOffs)
    && (co.Waiting? && s.ret.InProgress? ==> co.lo != s.wrOffs)
  }

  ghost predicate LinkOk(s: State, co: Co) {
    (Active(co) && s.ret.InProgress? && co.lo > s.wrOffs) || co.Waiting? ==> Before(s.cos, co.lo)
  }

  ghost predicate OrderInv(s: State) {
    && Tiles(s.written, End(s.written))
    && (s.ret.InProgress? ==> s.wrOffs == End(s.written) <= s.sectorNum && (s.wrOffs < s.sectorNum ==> Before(s.cos, s.sectorNum)))
    && (s.ret.Success? ==> End(s.written) == s.sectorNum)
    && (forall i | i in s.cos :: TurnOk(s, s.cos[i]) && LinkOk(s, s.cos[i]))
  }

  lemma BeforeKept(a: map<nat, Co>, b: map<nat, Co>, i: nat, k: nat)
    requires a.Keys == b.Keys && Before(a, k) && (i in a && Active(a[i]) && !Active(b[i]) ==> a[i].hi != k)
    requires forall j | j in a && j != i :: SamePlace(a[j], b[j])
    requires i in a && Active(a[i]) && Active(b[i]) ==> SamePlace(a[i], b[i])
    ensures Before(b, k)
  {
    var j :| j in a && Active(a[j]) && a[j].hi == k;
    assert Active(b[j]) && b[j].hi == k;
  }

  /** Coroutine `i` moves on with its chunk, or starts, or exits. */
  lemma OrderMove(s: State, s': State, i: nat, co: Co)
    requires OrderInv(s) && i in s.cos && SamePlace(s.cos[i], co)
    requires s' == s.(cos := s.cos[i := co], ret := s'.ret, cells := s'.cells, copyRange := s'.copyRange)
    requires s'.ret == s.ret || !s'.ret.InProgress?
    requires s'.ret.Success? ==> End(s.written) == s.sectorNum
    requires TurnOk(s', co) && (co.Waiting? ==> s'.ret.InProgress? && co.lo != s.wrOffs)
    ensures OrderInv(s')
  {
    forall k: nat | Before(s.cos, k) ensures Before(s'.cos, k) {
      BeforeKept(s.cos, s'.cos, i, k);
    }
    forall j | j in s'.cos ensures TurnOk(s', s'.cos[j]) && LinkOk(s', s'.cos[j]) {
      assert TurnOk(s, s.cos[j]) && LinkOk(s, s.cos[j]);
    }
  }

  lemma OrderTaken(s: State, i: nat, n: nat, st: ChunkStatus)
    requires OrderInv(s) && i in s.cos && !Active(s.cos[i]) && !s.ret.Success? && 0 < n
    ensures OrderInv(Taken(s, i, n, st))
  {
    var s' := Taken(s, i, n, st);
    forall k: nat | Before(s.cos, k) ensures Before(s'.cos, k) {
      BeforeKept(s.cos, s'.cos, i, k);
    }
    assert Active(s'.cos[i]) && s'.cos[i].hi == s'.sectorNum;
    forall j | j in s'.cos ensures TurnOk(s', s'.cos[j]) && LinkOk(s', s'.cos[j]) {
      if j != i {
        assert TurnOk(s, s.cos[j]) && LinkOk(s, s.cos[j]);
      }
    }
  }

  /** The chunk of `i` is the next to be written; all others begin after it. */
  lemma OthersAfter(s: State, i: nat, j: nat)
    requires i in s.cos && j in s.cos && i != j && Active(s.cos[i]) && Active(s.cos[j]) && s.ret.InProgress?
    requires Apart(s.cos[i], s.cos[j]) && s.cos[j].lo < s.cos[j].hi && TurnOk(s, s.cos[j]) && s.cos[i].lo == s.wrOffs
    ensures s.cos[i].hi <= s.cos[j].lo
  {
  }

  /** Handing on: after an error, or after the write whose turn it was. */
  lemma OrderPassOn(c: Config, s: State, s1: State, i: nat)
    requires ChunksInv(c, s) && OrderInv(s) && i in s.cos && Active(s.cos[i])
    requires s1.cos == s.cos && s1.sectorNum == s.sectorNum && s1.wrOffs == s.wrOffs && (s1.ret == s.ret || s1.ret.Failed?)
    requires s1.written == s.written ||
             (s.cos[i].Writing? && s1.written == s.written + [(s.cos[i].lo, s.cos[i].hi)])
    requires s1.ret.InProgress? ==> s.cos[i].Writing? && s1.written != s.written
    ensures OrderInv(PassOn(true, s1, i))
  {
    var s' := PassOn(true, s1, i);
    var hi := s.cos[i].hi;
    assert ChunkInv(c, s, s.cos[i]) && TurnOk(s, s.cos[i]);
    CopyingData(c, s);
    WakePlaces(c, s.cos[i := Idle], hi);
    if s1.written != s.written {
      TilesSnoc(s.written, s.cos[i].lo, hi);
    }
    forall k: nat | Before(s.cos, k) && k != hi ensures Before(s'.cos, k) {
      BeforeKept(s.cos, s'.cos, i, k);
    }
    forall j | j in s'.cos ensures TurnOk(s', s'.cos[j]) && LinkOk(s', s'.cos[j]) {
      if j != i {
        assert ChunkInv(c, s, s.cos[j]);
        PassOnOne(s, s1, i, j);
      }
    }
  }

  lemma PassOnOne(s: State, s1: State, i: nat, j: nat)
    requires i in s.cos && Active(s.cos[i]) && j in s.cos && i != j && Apart(s.cos[i], s.cos[j])
    requires s.cos[i].lo < s.cos[i].hi && (Active(s.cos[j]) ==> s.cos[j].lo < s.cos[j].hi)
    requires TurnOk(s, s.cos[i]) && TurnOk(s, s.cos[j])
    requires LinkOk(s, s.cos[j]) && (s.ret.InProgress? ==> s.wrOffs == End(s.written))
    requires s1.cos == s.cos && s1.wrOffs == s.wrOffs && (s1.ret == s.ret || s1.ret.Failed?)
    requires s1.written == s.written ||
             (s.cos[i].Writing? && s1.written == s.written + [(s.cos[i].lo, s.cos[i].hi)])
    requires s1.ret.InProgress? ==> s.cos[i].Writing? && s1.written != s.written
    requires forall k: nat | Before(s.cos, k) && k != s.cos[i].hi :: Before(PassOn(true, s1, i).cos, k)
    ensures var s' := PassOn(true, s1, i); TurnOk(s', s'.cos[j]) && LinkOk(s', s'.cos[j])
  {
    if Active(s.cos[j]) && s1.ret.InProgress? {
      OthersAfter(s, i, j);
    }
  }

  lemma OrderStep(c: Config, s: State, a: Action)
    requires Inv(c, s) && OrderInv(s) && Enabled(c, s, a)
    ensures OrderInv(Apply(c, true, s, a))
  {
    hide ChunksInv, SameOutside, Copied, Unspoiled, LinkOk, Before;
    var s' := Apply(c, true, s, a);
    assert TurnOk(s, s.cos[a.i]);
    match a
    case Start(i) => OrderMove(s, s', i, Idle);
    case Lock(i) => OrderMove(s, s', i, Querying);
    case Take(i, n, st) =>
      TakenKeeps(c, s, i, n, st);
      OrderTaken(s, i, n, st);
      OrderBegin(c, Taken(s, i, n, st), i);
    case StatusFails(i) => OrderMove(s, s', i, Exited);
    case Leave(i) =>
      NobodyLeft(s, s', i);
      OrderMove(s, s', i, Exited);
    case ReadDone(i, ok) => OrderBefore(c, s, if ok then s else s.(ret := Failed), i);
    case Continue(i) => OrderBefore(c, s, s, i);
    case WriteDone(i, ok, after) =>
      NotYet(c, s, i);
      OrderPassOn(c, s, Wrote(s, i, ok, after), i);
    case CopyFails(i, after) =>
      var s1 := s.(cells := after, copyRange := false);
      SpoilKeeps(c, s, s1, i);
      assert s.cos[i := s.cos[i]] == s.cos;
      OrderMove(s, s1, i, s.cos[i]);
      OrderBegin(c, s1, i);
  }

  lemma NobodyLeft(s: State, s': State, i: nat)
    requires i in s.cos && !Active(s.cos[i]) && s'.cos == s.cos[i := Exited]
    ensures (forall j | j in s'.cos :: !Running(s'.cos[j])) ==> !Before(s.cos, s.sectorNum)
  {
    if forall j | j in s'.cos :: !Running(s'.cos[j]) {
      forall j | j in s.cos ensures !Active(s.cos[j]) {
        assert j in s'.cos && !Running(s'.cos[j]);
      }
    }
  }

  lemma OrderBefore(c: Config, s: State, s1: State, i: nat)
    requires ChunksInv(c, s) && OrderInv(s) && i in s.cos && Active(s.cos[i]) && (s1 == s || s1 == s.(ret := Failed))
    ensures OrderInv(BeforeWrite(true, s1, i))
  {
    assert TurnOk(s, s.cos[i]);
    var s' := BeforeWrite(true, s1, i);
    if s1.ret.InProgress? {
      OrderMove(s, s', i, s'.cos[i]);
    } else {
      OrderPassOn(c, s, s1, i);
    }
  }

  lemma OrderBegin(c: Config, s: State, i: nat)
    requires ChunksInv(c, s) && OrderInv(s) && i in s.cos && Active(s.cos[i])
    ensures OrderInv(Begin(c, true, s, i))
  {
    CopyingData(c, s);
    hide ChunksInv, LinkOk, Before;
    var co := s.cos[i];
    assert TurnOk(s, co);
    if co.st.BlkData? && !s.copyRange {
      OrderMove(s, Begin(c, true, s, i), i, Reading(co.lo, co.hi, BlkData, false));
    } else {
      var r := Reading(co.lo, co.hi, WriteStatus(c, co.st), co.st.BlkData?);
      var s1 := s.(cos := s.cos[i := r]);
      MoveKeeps(c, s, s1);
      OrderMove(s, s1, i, r);
      OrderBefore(c, s1, s1, i);
    }
  }

  lemma {:induction false} RunInOrder(c: Config, run: seq<State>, actions: seq<Action>, k: nat)
    requires IsRun(c, true, run, actions) && k <= |actions|
    ensures OrderInv(run[k])
  {
    if k > 0 {
      hide Inv, OrderInv, Apply, Enabled;
      RunInOrder(c, run, actions, k - 1);
      RunKeeps(c, true, run, actions, k - 1);
      OrderStep(c, run[k - 1], actions[k - 1]);
    }
  }

  lemma ReachableInOrder(c: Config, s: State)
    requires Reachable(c, true, s)
    ensures Inv(c, s) && OrderInv(s)
  {
    hide Inv, OrderInv;
    var run, actions :| IsRun(c, true, run, actions) && run[|actions|] == s;
    RunInOrder(c, run, actions, |actions|);
    RunKeeps(c, true, run, actions, |actions|);
  }

  /** With writes in order, the chunks that have been written follow each other from the start of the image, whatever the
      schedule, and all of them have been written when the result is 0. */
  lemma WritesAreInOrder(c: Config, s: State)
    requires Reachable(c, true, s)
    ensures Tiles(s.written, End(s.written)) && (s.ret.InProgress? ==> s.wrOffs == End(s.written))
    ensures s.ret.Success? ==> End(s.written) == |Source(c)|
    ensures forall i | i in s.cos && s.cos[i].Writing? :: s.cos[i].lo == End(s.written)
  {
    ReachableInOrder(c, s);
    forall i | i in s.cos && s.cos[i].Writing? ensures s.cos[i].lo == End(s.written) {
      assert TurnOk(s, s.cos[i]);
    }
  }

  /** A coroutine that waits is never forgotten: the one before it still has its chunk in hand and will enter it, also after
      an error; and following these from one to the next leads to a coroutine that is not waiting. */
  lemma WaitingWillBeEntered(c: Config, s: State, i: nat) returns (j: nat)
    requires Reachable(c, true, s) && i in s.cos && s.cos[i].Waiting?
    ensures Before(s.cos, s.cos[i].lo)
    ensures j in s.cos && Active(s.cos[j]) && !s.cos[j].Waiting? && s.cos[j].hi <= s.cos[i].lo
  {
    ReachableInOrder(c, s);
    assert LinkOk(s, s.cos[i]);
    j := Descend(c, s, i);
  }

  lemma {:induction false} Descend(c: Config, s: State, i: nat) returns (j: nat)
    requires ChunksInv(c, s) && OrderInv(s) && i in s.cos && s.cos[i].Waiting?
    ensures j in s.cos && Active(s.cos[j]) && !s.cos[j].Waiting? && s.cos[j].hi <= s.cos[i].lo
    decreases s.cos[i].lo
  {
    assert LinkOk(s, s.cos[i]);
    j :| j in s.cos && Active(s.cos[j]) && s.cos[j].hi == s.cos[i].lo;
    assert ChunkInv(c, s, s.cos[j]);
    if s.cos[j].Waiting? {
      j := Descend(c, s, j);
    }
  }

  /** The coroutine does not wait for another one. */
  predicate CanMove(cos: map<nat, Co>, j: nat) {
    && j in cos && !cos[j].Waiting? && !cos[j].Exited?
    && (cos[j].Idle? ==> LockFree(cos))
  }

  /** There is no deadlock: while a coroutine is running, some coroutine can move. */
  lemma SomebodyCanMove(c: Config, s: State, i: nat) returns (j: nat)
    requires Reachable(c, true, s) && i in s.cos && Running(s.cos[i])
    ensures CanMove(s.cos, j) && Running(s.cos[j])
  {
    j := i;
    if s.cos[i].Waiting? {
      j := WaitingWillBeEntered(c, s, i);
    } else if s.cos[i].Idle? && !LockFree(s.cos) {
      j :| j in s.cos && s.cos[j].Querying?;
    }
  }
}
