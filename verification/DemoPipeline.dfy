/**
  The demo firmware (Demo/main.c, Demo/can.c) on its two CAN controllers
  (README_CAN.md): four tasks pass a token round four binary semaphores and move
  blocks of eight bytes from the UART through CAN0 and CAN1.  A step is one access of
  one task to a semaphore, a register or a byte of a buffer.
 */
module DemoPipeline {
  /** An unsigned char, as it appears in a 32-bit register. */
  type Byte = x: bv32 | x <= 0xFF
  type Block = s: seq<Byte> | |s| == 8 witness seq(8, _ => 0)

  // ----------------------------------------------------- CAN controllers

  const DLC_POS := 16
  const DLC_MASK: bv32 := 0xF0000
  const RTR: bv32 := 0x40000000
  const FF: bv32 := 0x80000000
  const TR: bv32 := 1
  const RRB: bv32 := 4
  const CDO: bv32 := 8

  /** The registers the demo touches; of the status register RBS and DOS. */
  datatype Can = Can(tfi: bv32, tda: bv32, tdb: bv32, rfi: bv32, rda: bv32, rdb: bv32, cmr: bv32, rbs: bool, dos: bool)

  /** Byte i of a data register: the register shifted right by 8 * i. */
  function Lane(r: bv32, i: nat): Byte
    requires i < 4
  {
    MaskIsByte(r);
    MaskIsByte(r >> 8);
    MaskIsByte(r >> 16);
    MaskIsByte(r >> 24);
    if i == 0 then r & 0xFF else if i == 1 then (r >> 8) & 0xFF else if i == 2 then (r >> 16) & 0xFF else (r >> 24) & 0xFF
  }

  lemma MaskIsByte(r: bv32)
    ensures r & 0xFF <= 0xFF
  {
  }

  /** Four bytes in a register, the first one in the lowest bits. */
  function Pack(a: Byte, b: Byte, c: Byte, d: Byte): bv32 {
    a | (b << 8) | (c << 16) | (d << 24)
  }

  lemma LanesOfPack(a: Byte, b: Byte, c: Byte, d: Byte)
    ensures Lane(Pack(a, b, c, d), 0) == a && Lane(Pack(a, b, c, d), 1) == b
    ensures Lane(Pack(a, b, c, d), 2) == c && Lane(Pack(a, b, c, d), 3) == d
  {
  }

  /** A 32-bit word from its bytes, the lowest first. */
  function Word(a: bv32, b: bv32, c: bv32, d: bv32): bv32 {
    a + 0x100 * b + 0x10000 * c + 0x1000000 * d
  }

  lemma PackIsWord(a: Byte, b: Byte, c: Byte, d: Byte)
    ensures Pack(a, b, c, d) == Word(a, b, c, d)
  {
  }

  /** The data byte i of a frame in two registers. */
  function DataByte(ra: bv32, rb: bv32, i: nat): Byte
    requires i < 8
  {
    if i < 4 then Lane(ra, i) else Lane(rb, i - 4)
  }

  /** The two registers hold the block. */
  predicate HoldsBlock(ra: bv32, rb: bv32, b: Block) {
    forall i | 0 <= i < 8 :: DataByte(ra, rb, i) == b[i]
  }

  /** What CAN_write puts into the two transmit data registers. */
  function DataA(b: Block): bv32 {
    Pack(b[0], b[1], b[2], b[3])
  }

  function DataB(b: Block): bv32 {
    Pack(b[4], b[5], b[6], b[7])
  }

  /** The layout of the data registers: byte 0 of the block, and byte 4, are the lowest ones. */
  lemma RegisterLayout(b: Block)
    ensures DataA(b) == Word(b[0], b[1], b[2], b[3]) && DataB(b) == Word(b[4], b[5], b[6], b[7])
  {
    PackIsWord(b[0], b[1], b[2], b[3]);
    PackIsWord(b[4], b[5], b[6], b[7]);
  }

  lemma PackHolds(b: Block)
    ensures HoldsBlock(DataA(b), DataB(b), b)
  {
    hide Lane, Pack;
    LanesOfPack(b[0], b[1], b[2], b[3]);
    LanesOfPack(b[4], b[5], b[6], b[7]);
  }

  function Dlc(r: bv32): bv32 {
    (r & DLC_MASK) >> DLC_POS
  }

  /** The number of data bytes that a data length code stands for. */
  function Count(dlc: bv32): (n: nat)
    ensures n <= 8
  {
    if dlc >= 8 then 8 else if dlc == 7 then 7 else if dlc == 6 then 6 else if dlc == 5 then 5 else if dlc == 4 then 4
    else if dlc == 3 then 3 else if dlc == 2 then 2 else if dlc == 1 then 1 else 0
  }

  /** The frame information that CAN_write composes. */
  function FrameInfo(extended: bv32, remote: bv32, dlc: bv32): bv32 {
    ((extended & 1) << 31) | ((remote & 1) << 30) | ((dlc & 0xF) << DLC_POS)
  }

  /** can_transmit: the data length of the frame, and its data; a remote frame carries none. */
  function SentDlc(tfi: bv32): bv32 {
    if tfi & RTR == 0 then Dlc(tfi) else 0
  }

  function SentData(c: Can): Block {
    seq(8, i requires 0 <= i < 8 => if i < Count(SentDlc(c.tfi)) then DataByte(c.tda, c.tdb, i) else 0)
  }

  /** can_receive: a frame that finds the receive buffer occupied is an overrun. */
  function Receive(c: Can, info: bv32, dlc: bv32, data: Block): Can {
    var n := Count(dlc);
    c.(dos := c.dos || c.rbs, rbs := true,
       rfi := (info & (FF | RTR)) | ((dlc << DLC_POS) & DLC_MASK),
       rda := Pack(if n > 0 then data[0] else 0, if n > 1 then data[1] else 0, if n > 2 then data[2] else 0,
                   if n > 3 then data[3] else 0),
       rdb := Pack(if n > 4 then data[4] else 0, if n > 5 then data[5] else 0, if n > 6 then data[6] else 0,
                   if n > 7 then data[7] else 0))
  }

  /** A write to the command register of `c`, with `other` on the same bus. */
  function WriteCmr(c: Can, other: Can, val: bv32): (Can, Can) {
    var c1 := if val & RRB != 0 then c.(rbs := false, cmr := c.cmr & !RRB) else c;
    var c2 := if val & CDO != 0 then c1.(dos := false, cmr := c1.cmr & !CDO) else c1;
    if val & TR != 0 then (c2.(cmr := c2.cmr & !TR), Receive(other, c2.tfi, SentDlc(c2.tfi), SentData(c2))) else (c2, other)
  }

  /** Sending a block of eight bytes in a data frame: the other controller holds it, and reports an overrun only if its
      buffer had not been released. */
  lemma SendBlock(c: Can, other: Can, b: Block)
    requires c.cmr == 0 && c.tfi == FrameInfo(1, 0, 8) && HoldsBlock(c.tda, c.tdb, b)
    ensures var (c', o) := WriteCmr(c, other, c.cmr | TR);
            && c' == c && o.rbs && o.dos == (other.dos || other.rbs) && o.cmr == other.cmr
            && Count(Dlc(o.rfi)) == 8 && HoldsBlock(o.rda, o.rdb, b)
            && o.rfi == 0x80080000 && o.rda == DataA(b) && o.rdb == DataB(b)
  {
    InfoBits();
    CommandBits();
    hide FrameInfo, Dlc;
    assert SentData(c) == b;
    PackHolds(b);
  }

  lemma InfoBits()
    ensures FrameInfo(1, 0, 8) & RTR == 0 && Dlc(FrameInfo(1, 0, 8)) == 8
    ensures (FrameInfo(1, 0, 8) & (FF | RTR)) | ((8 << DLC_POS) & DLC_MASK) == 0x80080000 && Dlc(0x80080000) == 8
  {
  }

  lemma CommandBits()
    ensures (0 | TR) & TR != 0 && (0 | TR) & RRB == 0 && (0 | TR) & CDO == 0 && 0 & !TR == 0
    ensures (0 | RRB) & RRB != 0 && (0 | RRB) & CDO == 0 && (0 | RRB) & TR == 0 && 0 & !RRB == 0
  {
  }

  /** Releasing the receive buffer. */
  lemma ReleaseBuffer(c: Can, other: Can)
    requires c.cmr == 0
    ensures WriteCmr(c, other, c.cmr | RRB) == (c.(rbs := false), other)
  {
    CommandBits();
  }

  // ------------------------------------------------------------ the tasks

  /** Tasks and semaphores are numbered from 1 to 4; task t takes semaphore t.  A task at 0 is at its take, and inside
      otherwise.  `free` are the semaphores that can be taken.  `inputs` are the blocks read from the UART, `outputs` what
      characters2 held when it was printed. */
  datatype State = State(free: set<nat>, pc: map<nat, nat>, characters: Block, characters2: Block, can0: Can, can1: Can,
                         dlc: bv32, inputs: seq<Block>, outputs: seq<Block>)

  predicate IsTask(t: nat) {
    1 <= t <= 4
  }

  function NextTask(t: nat): nat {
    if t == 4 then 1 else t + 1
  }

  /** Where each task gives the next semaphore. */
  function GiveAt(t: nat): nat {
    match t case 1 => 9 case 2 => 5 case 3 => 12 case _ => 2
  }

  predicate Enabled(s: State, t: nat) {
    IsTask(t) && t in s.pc && (s.pc[t] == 0 ==> t in s.free)
  }

  /** read_from_UART: a byte at each of 1 to 8. */
  function Task1(s: State, p: nat, c: Byte): State
    requires 1 <= p <= 8 && 1 in s.pc
  {
    s.(characters := s.characters[p - 1 := c], pc := s.pc[1 := p + 1])
  }

  /** write_to_CAN_and_transmit */
  function Task2(s: State, p: nat): State
    requires 2 in s.pc
  {
    var b := s.characters;
    match p
    case 1 => s.(can0 := s.can0.(tfi := FrameInfo(1, 0, 8)), pc := s.pc[2 := 2])
    case 2 => s.(can0 := s.can0.(tda := DataA(b)), pc := s.pc[2 := 3])
    case 3 => s.(can0 := s.can0.(tdb := DataB(b)), pc := s.pc[2 := 4])
    case _ =>
      var (c0, c1) := WriteCmr(s.can0, s.can1, s.can0.cmr | TR);
      s.(can0 := c0, can1 := c1, pc := s.pc[2 := 5])
  }

  /** read_from_CAN: polls at 1, reads the data length at 2, the data from 3 on, and releases the buffer. */
  function Task3(s: State, p: nat): State
    requires 3 in s.pc
  {
    if p == 1 then (if s.can1.rbs then s.(pc := s.pc[3 := 2]) else s)
    else if p == 2 then s.(dlc := Dlc(s.can1.rfi), pc := s.pc[3 := 3])
    else if 3 <= p < 11 && p - 3 < Count(s.dlc) then
      s.(characters2 := s.characters2[p - 3 := DataByte(s.can1.rda, s.can1.rdb, p - 3)], pc := s.pc[3 := p + 1])
    else
      var (c1, c0) := WriteCmr(s.can1, s.can0, s.can1.cmr | RRB);
      s.(can1 := c1, can0 := c0, pc := s.pc[3 := 12])
  }

  /** write_to_UART */
  function Task4(s: State): State
    requires 4 in s.pc
  {
    s.(outputs := s.outputs + [s.characters2], pc := s.pc[4 := 2])
  }

  /** One step of task t; `c` is what UART_getchar returns. */
  function Step(s: State, t: nat, c: Byte): State
    requires Enabled(s, t)
  {
    var p := s.pc[t];
    if p == 0 then s.(free := s.free - {t}, pc := s.pc[t := 1])
    else if p == GiveAt(t) then
      s.(free := s.free + {NextTask(t)}, pc := s.pc[t := 0], inputs := if t == 1 then s.inputs + [s.characters] else s.inputs)
    else if t == 1 && p <= 8 then Task1(s, p, c)
    else if t == 2 then Task2(s, p)
    else if t == 3 then Task3(s, p)
    else if t == 4 then Task4(s)
    else s
  }

  predicate Initial(s: State) {
    && s.free == {1} && s.pc == map[1 := 0, 2 := 0, 3 := 0, 4 := 0]
    && s.can0.cmr == 0 && s.can1.cmr == 0 && !s.can1.rbs && !s.can1.dos
    && s.inputs == [] && s.outputs == []
  }

  ghost predicate IsRun(run: seq<State>, tasks: seq<nat>, chars: seq<Byte>) {
    && |run| == |tasks| + 1 && |chars| == |tasks| && Initial(run[0])
    && forall k | 0 <= k < |tasks| :: Enabled(run[k], tasks[k]) && run[k + 1] == Step(run[k], tasks[k], chars[k])
  }

  // ----------------------------------------------------------- invariant

  /** The token is with task t: at its semaphore if p is 0, and inside at step p otherwise.  Nobody else has one. */
  predicate TokenAt(s: State, t: nat, p: nat) {
    && IsTask(t) && p <= GiveAt(t)
    && s.free == (if p == 0 then {t} else {})
    && s.pc == map[1 := 0, 2 := 0, 3 := 0, 4 := 0][t := p]
  }

  /** All blocks read so far have been printed, or all but the one on its way. */
  predicate Printed(s: State, pending: bool) {
    if pending then s.inputs != [] && s.inputs[..|s.inputs| - 1] == s.outputs else s.inputs == s.outputs
  }

  function Pending(s: State): Block
    requires s.inputs != []
  {
    s.inputs[|s.inputs| - 1]
  }

  /** Where the block on its way is. */
  predicate DataAt(s: State, t: nat, p: nat) {
    && s.can0.cmr == 0 && s.can1.cmr == 0 && !s.can1.dos
    && match t
       case 1 => Printed(s, false) && !s.can1.rbs
       case 2 => Printed(s, true) && s.characters == Pending(s) && Sending(s, p)
       case 3 => Printed(s, true) && Receiving(s, p)
       case _ => Printed(s, p < 2) && !s.can1.rbs && (p < 2 ==> s.characters2 == Pending(s))
  }

  /** The receive buffer of CAN1 holds the block. */
  predicate InCan1(can1: Can, b: Block) {
    can1.rbs && Count(Dlc(can1.rfi)) == 8 && HoldsBlock(can1.rda, can1.rdb, b)
  }

  predicate Sending(s: State, p: nat)
    requires s.inputs != []
  {
    var b := Pending(s);
    && (1 < p < 5 ==> s.can0.tfi == FrameInfo(1, 0, 8))
    && (2 < p < 5 ==> s.can0.tda == DataA(b))
    && (3 < p < 5 ==> s.can0.tdb == DataB(b))
    && if p < 5 then !s.can1.rbs else InCan1(s.can1, b)
  }

  predicate Receiving(s: State, p: nat)
    requires s.inputs != []
  {
    && (if p < 12 then InCan1(s.can1, Pending(s)) else !s.can1.rbs && s.characters2 == Pending(s))
    && (2 < p < 12 ==> Count(s.dlc) == 8 && s.characters2[..p - 3] == Pending(s)[..p - 3])
  }

  ghost predicate Inv(s: State) {
    exists t: nat, p: nat :: TokenAt(s, t, p) && DataAt(s, t, p)
  }

  lemma OnlyTokenMoves(s: State, t: nat, p: nat, u: nat)
    requires TokenAt(s, t, p) && Enabled(s, u)
    ensures u == t && s.pc[u] == p
  {
  }

  lemma Step1(s: State, p: nat, c: Byte)
    requires TokenAt(s, 1, p) && DataAt(s, 1, p) && 0 < p < 9
    ensures TokenAt(Step(s, 1, c), 1, p + 1) && DataAt(Step(s, 1, c), 1, p + 1)
  {
    hide Task2, Task3, Task4, Sending, Receiving, Pending;
  }

  lemma Step2(s: State, p: nat, c: Byte)
    requires TokenAt(s, 2, p) && DataAt(s, 2, p) && 0 < p < 4
    ensures TokenAt(Step(s, 2, c), 2, p + 1) && DataAt(Step(s, 2, c), 2, p + 1)
  {
    hide FrameInfo, DataA, DataB, WriteCmr, Task1, Task3, Task4, Receiving, InCan1;
    if p == 1 {
    } else if p == 2 {
    } else {
    }
  }

  lemma Transmit(s: State, c: Byte)
    requires TokenAt(s, 2, 4) && DataAt(s, 2, 4)
    ensures TokenAt(Step(s, 2, c), 2, 5) && DataAt(Step(s, 2, c), 2, 5)
  {
    hide FrameInfo, DataA, DataB, HoldsBlock, WriteCmr, Dlc, Count, Task1, Task3, Task4, Receiving;
    PackHolds(Pending(s));
    SendBlock(s.can0, s.can1, Pending(s));
  }

  lemma Step3(s: State, p: nat, c: Byte)
    requires TokenAt(s, 3, p) && DataAt(s, 3, p) && 0 < p < 12
    ensures TokenAt(Step(s, 3, c), 3, p + 1) && DataAt(Step(s, 3, c), 3, p + 1)
  {
    hide WriteCmr, Dlc, DataByte, Count, HoldsBlock, Task1, Task2, Task4, Sending;
    if 3 <= p < 11 {
      ByteRead(s.can1, Pending(s), s.characters2, p - 3);
    } else if p == 11 {
      ReleaseBuffer(s.can1, s.can0);
      assert s.characters2[..8] == s.characters2 && Pending(s)[..8] == Pending(s);
    }
  }

  lemma ByteRead(c: Can, b: Block, buf: Block, i: nat)
    requires HoldsBlock(c.rda, c.rdb, b) && i < 8 && buf[..i] == b[..i]
    ensures buf[i := DataByte(c.rda, c.rdb, i)][..i + 1] == b[..i + 1]
  {
    hide DataByte;
    assert DataByte(c.rda, c.rdb, i) == b[i];
    assert buf[i := b[i]][..i + 1] == buf[..i] + [b[i]];
    assert b[..i + 1] == b[..i] + [b[i]];
  }

  lemma Step4(s: State, c: Byte)
    requires TokenAt(s, 4, 1) && DataAt(s, 4, 1)
    ensures TokenAt(Step(s, 4, c), 4, 2) && DataAt(Step(s, 4, c), 4, 2)
  {
    hide Task1, Task2, Task3, Sending, Receiving;
    assert s.outputs + [s.characters2] == s.inputs;
  }

  lemma TakeKeeps(s: State, t: nat, c: Byte)
    requires TokenAt(s, t, 0) && DataAt(s, t, 0)
    ensures TokenAt(Step(s, t, c), t, 1) && DataAt(Step(s, t, c), t, 1)
  {
    hide Task1, Task2, Task3, Task4, InCan1;
  }

  lemma GiveKeeps(s: State, t: nat, c: Byte)
    requires TokenAt(s, t, GiveAt(t)) && DataAt(s, t, GiveAt(t))
    ensures TokenAt(Step(s, t, c), NextTask(t), 0) && DataAt(Step(s, t, c), NextTask(t), 0)
  {
    hide Task1, Task2, Task3, Task4, DataAt;
    GaveData(s, Step(s, t, c), t);
  }

  lemma GaveData(s: State, s': State, t: nat)
    requires IsTask(t) && DataAt(s, t, GiveAt(t))
    requires s' == s.(free := s'.free, pc := s'.pc, inputs := if t == 1 then s.inputs + [s.characters] else s.inputs)
    ensures DataAt(s', NextTask(t), 0)
  {
    hide InCan1;
    if t == 1 {
      assert s'.inputs[..|s.inputs|] == s.inputs;
    }
  }

  lemma StepKeeps(s: State, t: nat, p: nat, c: Byte)
    requires TokenAt(s, t, p) && DataAt(s, t, p)
    ensures Enabled(s, t) && Inv(Step(s, t, c))
    ensures var s', last := Step(s, t, c), p == GiveAt(t);
            TokenAt(s', if last then NextTask(t) else t, if last then 0 else p + 1) &&
            DataAt(s', if last then NextTask(t) else t, if last then 0 else p + 1)
  {
    hide Step, DataAt;
    if p == 0 {
      TakeKeeps(s, t, c);
    } else if p == GiveAt(t) {
      GiveKeeps(s, t, c);
    } else if t == 1 {
      Step1(s, p, c);
    } else if t == 2 && p == 4 {
      Transmit(s, c);
    } else if t == 2 {
      Step2(s, p, c);
    } else if t == 3 {
      Step3(s, p, c);
    } else {
      Step4(s, c);
    }
  }

  lemma {:induction false} RunKeeps(run: seq<State>, tasks: seq<nat>, chars: seq<Byte>, k: nat)
    requires IsRun(run, tasks, chars) && k <= |tasks|
    ensures Inv(run[k])
  {
    if k == 0 {
      assert TokenAt(run[0], 1, 0) && DataAt(run[0], 1, 0);
    } else {
      RunKeeps(run, tasks, chars, k - 1);
      var t: nat, p: nat :| TokenAt(run[k - 1], t, p) && DataAt(run[k - 1], t, p);
      OnlyTokenMoves(run[k - 1], t, p, tasks[k - 1]);
      StepKeeps(run[k - 1], t, p, chars[k - 1]);
    }
  }

  /** Where the token is after k steps of a round: 10 with task 1, 6 with task 2, 13 with task 3, and 3 with task 4. */
  function Place(k: nat): (nat, nat) {
    if k < 10 then (1, k) else if k < 16 then (2, k - 10) else if k < 29 then (3, k - 16) else (4, k - 29)
  }

  const ROUND := 32

  /** Where a run is after k steps: the token is in its place, and the blocks are counted. */
  predicate OnSchedule(s: State, k: nat) {
    && TokenAt(s, Place(k % ROUND).0, Place(k % ROUND).1) && DataAt(s, Place(k % ROUND).0, Place(k % ROUND).1)
    && |s.inputs| == (k + 22) / ROUND && |s.outputs| == (k + 1) / ROUND
  }

  lemma ScheduleStep(s: State, k: nat, u: nat, c: Byte)
    requires OnSchedule(s, k) && Enabled(s, u)
    ensures OnSchedule(Step(s, u, c), k + 1)
  {
    hide Step, DataAt, TokenAt, Place, Enabled;
    var t, p := Place(k % ROUND).0, Place(k % ROUND).1;
    OnlyTokenMoves(s, t, p, u);
    StepKeeps(s, t, p, c);
    StepCounts(s, t, p, c);
    NextPlace(k + 1);
  }

  /** The schedule leaves no choice: a round takes 32 steps, whatever the interleaving, and every round reads one block and
      prints one. */
  lemma {:induction false} RoundsAreFixed(run: seq<State>, tasks: seq<nat>, chars: seq<Byte>, k: nat)
    requires IsRun(run, tasks, chars) && k <= |tasks|
    ensures OnSchedule(run[k], k)
  {
    hide OnSchedule, Step, Initial, Enabled;
    if k == 0 {
      ScheduleStart(run[0]);
    } else {
      RoundsAreFixed(run, tasks, chars, k - 1);
      ScheduleStep(run[k - 1], k - 1, tasks[k - 1], chars[k - 1]);
    }
  }

  lemma ScheduleStart(s: State)
    requires Initial(s)
    ensures OnSchedule(s, 0)
  {
  }

  /** ... so that after n full rounds n blocks have been printed, and those are the first 8n bytes from the UART. */
  lemma RoundsPrint(run: seq<State>, tasks: seq<nat>, chars: seq<Byte>, n: nat)
    requires IsRun(run, tasks, chars) && |tasks| == ROUND * n
    ensures |run[|tasks|].outputs| == n && Concat(run[|tasks|].outputs) == UartInput(run, tasks, chars, |tasks|)
  {
    assert |run| == |tasks| + 1;
    hide UartInput, Concat, IsRun, OnSchedule, Partial;
    RoundsAreFixed(run, tasks, chars, |tasks|);
    InputKept(run, tasks, chars, |tasks|);
    RoundEnd(run[|tasks|], |tasks|, n);
  }

  lemma RoundEnd(s: State, k: nat, n: nat)
    requires OnSchedule(s, k) && k == ROUND * n
    ensures |s.outputs| == n && s.inputs == s.outputs && Partial(s) == []
  {
    assert k % ROUND == 0;
    hide Sending, Receiving;
  }

  lemma NextPlace(k: nat)
    requires k > 0
    ensures var (t, p) := Place((k - 1) % ROUND);
            && Place(k % ROUND) == (if p == GiveAt(t) then (NextTask(t), 0) else (t, p + 1))
            && (k + 22) / ROUND == (k + 21) / ROUND + (if t == 1 && p == 9 then 1 else 0)
            && (k + 1) / ROUND == k / ROUND + (if t == 4 && p == 1 then 1 else 0)
  {
    CountUp(k);
    PlaceUp((k - 1) % ROUND);
    hide Place;
  }

  lemma CountUp(k: nat)
    requires k > 0
    ensures var r := (k - 1) % ROUND;
            && r < ROUND && k % ROUND == (if r == 31 then 0 else r + 1)
            && (k + 22) / ROUND == (k + 21) / ROUND + (if r == 9 then 1 else 0)
            && (k + 1) / ROUND == k / ROUND + (if r == 30 then 1 else 0)
  {
    var q, r := (k - 1) / ROUND, (k - 1) % ROUND;
    assert k - 1 == ROUND * q + r;
  }

  lemma PlaceUp(r: nat)
    requires r < ROUND
    ensures var (t, p) := Place(r);
            && Place(if r == 31 then 0 else r + 1) == (if p == GiveAt(t) then (NextTask(t), 0) else (t, p + 1))
            && (t == 1 && p == 9 <==> r == 9) && (t == 4 && p == 1 <==> r == 30)
  {
  }

  lemma StepCounts(s: State, t: nat, p: nat, c: Byte)
    requires TokenAt(s, t, p) && Enabled(s, t)
    ensures |Step(s, t, c).inputs| == |s.inputs| + if t == 1 && p == 9 then 1 else 0
    ensures |Step(s, t, c).outputs| == |s.outputs| + if t == 4 && p == 1 then 1 else 0
  {
    hide WriteCmr, Dlc, DataByte, Count, FrameInfo, DataA, DataB;
  }

  /** In every interleaving at most one task is between its take and its give. */
  lemma OneTaskInside(run: seq<State>, tasks: seq<nat>, chars: seq<Byte>, t: nat, u: nat)
    requires IsRun(run, tasks, chars) && IsTask(t) && IsTask(u)
    ensures var s := run[|tasks|]; t in s.pc && u in s.pc && (s.pc[t] > 0 && s.pc[u] > 0 ==> t == u)
  {
    hide DataAt;
    RunKeeps(run, tasks, chars, |tasks|);
  }

  /** What is printed is what was read: the k-th block printed is the k-th block read, and at most one block is on its way. */
  lemma BlocksArriveInOrder(run: seq<State>, tasks: seq<nat>, chars: seq<Byte>)
    requires IsRun(run, tasks, chars)
    ensures var s := run[|tasks|]; s.outputs <= s.inputs && |s.inputs| <= |s.outputs| + 1
  {
    RunKeeps(run, tasks, chars, |tasks|);
  }

  // ----------------------------------------------- what the UART delivered

  /** What UART_getchar has returned to read_from_UART in the first k steps, in order. */
  ghost function UartInput(run: seq<State>, tasks: seq<nat>, chars: seq<Byte>, k: nat): seq<Byte>
    requires k <= |tasks| && k <= |run| && k <= |chars|
  {
    if k == 0 then []
    else
      var gets := tasks[k - 1] == 1 && 1 in run[k - 1].pc && 1 <= run[k - 1].pc[1] <= 8;
      UartInput(run, tasks, chars, k - 1) + if gets then [chars[k - 1]] else []
  }

  function Concat(blocks: seq<Block>): seq<Byte> {
    if blocks == [] then [] else Concat(blocks[..|blocks| - 1]) + blocks[|blocks| - 1]
  }

  lemma {:induction false} ConcatAt(blocks: seq<Block>, j: nat)
    requires j < |blocks|
    ensures |Concat(blocks)| == 8 * |blocks| && Concat(blocks)[8 * j..8 * j + 8] == blocks[j]
  {
    var front := blocks[..|blocks| - 1];
    if front != [] {
      ConcatAt(front, if j < |front| then j else 0);
    }
    if j < |front| {
      assert Concat(blocks)[8 * j..8 * j + 8] == Concat(front)[8 * j..8 * j + 8];
    } else {
      assert |Concat(front)| == 8 * j;
    }
  }

  /** The part of the block that read_from_UART has got so far. */
  function Partial(s: State): seq<Byte> {
    if 1 in s.pc && 1 <= s.pc[1] <= 9 then s.characters[..s.pc[1] - 1] else []
  }

  /** The block in hand, the blocks read, and where read_from_UART is. */
  predicate SameInput(s: State, s': State) {
    s'.inputs == s.inputs && s'.characters == s.characters && 1 in s.pc && 1 in s'.pc && s'.pc[1] == s.pc[1]
  }

  lemma TasksKeepInput(s: State, p: nat)
    requires 1 in s.pc && 2 in s.pc && 3 in s.pc && 4 in s.pc
    ensures SameInput(s, Task2(s, p)) && SameInput(s, Task3(s, p)) && SameInput(s, Task4(s))
  {
    hide FrameInfo, DataA, DataB, WriteCmr, Dlc, Count, DataByte;
  }

  /** No other task touches what has been read. */
  lemma InputOthers(s: State, t: nat, p: nat, c: Byte)
    requires TokenAt(s, t, p) && t != 1
    ensures var s' := Step(s, t, c); s'.inputs == s.inputs && Partial(s') == [] && Partial(s) == []
  {
    TasksKeepInput(s, p);
    hide Task1, Task2, Task3, Task4;
    assert SameInput(s, Step(s, t, c));
  }

  lemma InputGot(s: State, p: nat, c: Byte)
    requires TokenAt(s, 1, p) && 1 <= p <= 8
    ensures var s' := Step(s, 1, c); s'.inputs == s.inputs && Partial(s') == Partial(s) + [c]
  {
    hide Task2, Task3, Task4;
    assert s.characters[p - 1 := c][..p] == s.characters[..p - 1] + [c];
  }

  lemma InputBlock(s: State, p: nat, c: Byte)
    requires TokenAt(s, 1, p) && (p == 0 || p == 9)
    ensures var s' := Step(s, 1, c);
            && (p == 0 ==> s'.inputs == s.inputs && Partial(s) == [] && Partial(s') == [])
            && (p == 9 ==> s'.inputs == s.inputs + [s.characters] && Partial(s) == s.characters && Partial(s') == [])
  {
    hide Task1, Task2, Task3, Task4;
    assert s.characters[..8] == s.characters;
  }

  lemma ConcatSnoc(blocks: seq<Block>, b: Block)
    ensures Concat(blocks + [b]) == Concat(blocks) + b
  {
    assert (blocks + [b])[..|blocks|] == blocks;
  }

  lemma InputStep(s: State, t: nat, p: nat, c: Byte)
    requires TokenAt(s, t, p)
    ensures var s' := Step(s, t, c);
            Concat(s'.inputs) + Partial(s') == Concat(s.inputs) + Partial(s) + if t == 1 && 1 <= p <= 8 then [c] else []
  {
    hide Step, Concat, Partial;
    if t != 1 {
      InputOthers(s, t, p, c);
    } else if 1 <= p <= 8 {
      InputGot(s, p, c);
    } else {
      InputBlock(s, p, c);
      ConcatSnoc(s.inputs, s.characters);
    }
  }

  lemma HasToken(s: State) returns (t: nat, p: nat)
    requires Inv(s)
    ensures TokenAt(s, t, p)
  {
    t, p :| TokenAt(s, t, p) && DataAt(s, t, p);
  }

  /** Over every run: the blocks read, and the part of the next one, are what the UART delivered, byte for byte. */
  lemma {:induction false} InputKept(run: seq<State>, tasks: seq<nat>, chars: seq<Byte>, k: nat)
    requires IsRun(run, tasks, chars) && k <= |tasks|
    ensures UartInput(run, tasks, chars, k) == Concat(run[k].inputs) + Partial(run[k])
  {
    if k > 0 {
      hide Step, DataAt, Concat, Partial, TokenAt, Inv;
      InputKept(run, tasks, chars, k - 1);
      RunKeeps(run, tasks, chars, k - 1);
      var s, c := run[k - 1], chars[k - 1];
      var t, p := HasToken(s);
      assert Enabled(s, tasks[k - 1]) && run[k] == Step(s, tasks[k - 1], c);
      hide IsRun;
      OnlyTokenMoves(s, t, p, tasks[k - 1]);
      InputStep(s, t, p, c);
    }
  }

  /** The k-th block printed is bytes 8k to 8k + 7 of what the UART delivered. */
  lemma BytesArriveInOrder(run: seq<State>, tasks: seq<nat>, chars: seq<Byte>, k: nat)
    requires IsRun(run, tasks, chars) && k < |run[|tasks|].outputs|
    ensures var input := UartInput(run, tasks, chars, |tasks|);
            8 * k + 8 <= |input| && run[|tasks|].outputs[k] == input[8 * k..8 * k + 8]
  {
    var s := run[|tasks|];
    BlocksArriveInOrder(run, tasks, chars);
    InputKept(run, tasks, chars, |tasks|);
    ConcatAt(s.inputs, k);
    assert s.outputs[k] == s.inputs[k];
    assert (Concat(s.inputs) + Partial(s))[8 * k..8 * k + 8] == Concat(s.inputs)[8 * k..8 * k + 8];
  }

  /** CAN1 never reports an overrun, and the poll of read_from_CAN succeeds at once. */
  lemma NoOverrun(run: seq<State>, tasks: seq<nat>, chars: seq<Byte>)
    requires IsRun(run, tasks, chars)
    ensures var s := run[|tasks|]; !s.can1.dos && (3 in s.pc && s.pc[3] == 1 ==> s.can1.rbs)
  {
    RunKeeps(run, tasks, chars, |tasks|);
  }

  /** There is always exactly one task that can move. */
  lemma AlwaysOneEnabled(run: seq<State>, tasks: seq<nat>, chars: seq<Byte>) returns (t: nat)
    requires IsRun(run, tasks, chars)
    ensures Enabled(run[|tasks|], t) && forall u: nat | Enabled(run[|tasks|], u) :: u == t
  {
    RunKeeps(run, tasks, chars, |tasks|);
    var p: nat;
    t, p :| TokenAt(run[|tasks|], t, p) && DataAt(run[|tasks|], t, p);
  }
}
