/**
  The handshake of qemu/cpu-common.c between vCPU threads that execute guest
  code and a thread that wants an exclusive section.

  Every thread is identified with the CPU it drives.  One step of the model is
  one atomic access of the source: a read or write of `pending_cpus` or of a
  `running` flag, a lock or unlock of `qemu_cpu_list_lock`, a wait, a wake-up, a
  signal or a broadcast.  Steps of different threads interleave arbitrarily,
  condition variables may wake up spuriously, and CPUs come and go at any time.
 */
module CpuExclusive {
  import opened Wrappers

  type Cpu = nat

  /** The point a thread has reached.  The comment names the access that comes next. */
  datatype Pc =
    | Outside                                   // in none of the four functions
      // start_exclusive
    | StartLock                                 // lock
    | StartIdle                                 // exclusive_idle: read pending_cpus
    | StartIdleWait(woken: bool)                // exclusive_idle: asleep on exclusive_resume
    | StartClaim                                // pending_cpus = 1
    | StartScan(todo: set<Cpu>, counted: nat)   // read running of the CPUs in todo
    | StartPublish(counted: nat)                // pending_cpus = counted + 1
    | StartCheck                                // read pending_cpus
    | StartWait(woken: bool)                    // asleep on exclusive_cond
    | StartUnlock                               // unlock
    | StartEnter                                // exclusive_context_count = 1
      // end_exclusive
    | EndLock                                   // lock
    | EndClear                                  // pending_cpus = 0
    | EndBroadcast                              // broadcast exclusive_resume
    | EndUnlock                                 // unlock
      // cpu_exec_start
    | ExecMark                                  // running = true
    | ExecProbe                                 // read pending_cpus
    | ExecLock                                  // lock
    | ExecTest                                  // read has_waiter
    | ExecUnmark                                // running = false
    | ExecIdle                                  // exclusive_idle: read pending_cpus
    | ExecIdleWait(woken: bool)                 // exclusive_idle: asleep on exclusive_resume
    | ExecRemark                                // running = true
    | ExecUnlock                                // unlock
      // between cpu_exec_start and cpu_exec_end
    | Executing
      // cpu_exec_end
    | LeaveUnmark                               // running = false
    | LeaveProbe                                // read pending_cpus
    | LeaveLock                                 // lock
    | LeaveTest                                 // read and clear has_waiter
    | LeaveCount                                // pending_cpus = pending_cpus - 1
    | LeaveSignal                               // signal exclusive_cond if pending_cpus == 1
    | LeaveUnlock                               // unlock

  datatype CpuState = CpuState(pc: Pc, running: bool, hasWaiter: bool, nesting: nat)

  datatype State = State(cpus: map<Cpu, CpuState>, mutex: Option<Cpu>, pending: int)

  datatype Action =
    | Plug | Unplug                             // cpu_list_add, cpu_list_remove
    | StartExclusive | EndExclusive             // calls
    | ExecStart | ExecEnd                       // calls
    | Examine(other: Cpu)                       // the next CPU of CPU_FOREACH
    | SignalTo(sleeper: Cpu)                    // the thread a signal wakes
    | Spurious                                  // a wake-up nobody asked for
    | Advance                                   // any other access

  const INITIAL := State(map[], None, 0)

  // ----------------------------------------------------------- transitions

  /** Program points at which the thread holds qemu_cpu_list_lock. */
  predicate Holds(pc: Pc) {
    || pc.StartIdle? || pc.StartClaim? || pc.StartScan? || pc.StartPublish? || pc.StartCheck? || pc.StartUnlock?
    || pc.EndClear? || pc.EndBroadcast? || pc.EndUnlock?
    || pc.ExecTest? || pc.ExecUnmark? || pc.ExecIdle? || pc.ExecRemark? || pc.ExecUnlock?
    || pc.LeaveTest? || pc.LeaveCount? || pc.LeaveSignal? || pc.LeaveUnlock?
  }

  /** Program points whose next access needs the lock to be free. */
  predicate Acquires(pc: Pc) {
    || pc.StartLock? || pc.StartIdleWait? || pc.StartWait? || pc.EndLock?
    || pc.ExecLock? || pc.ExecIdleWait? || pc.LeaveLock?
  }

  predicate Asleep(pc: Pc) {
    (pc.StartIdleWait? || pc.StartWait? || pc.ExecIdleWait?) && !pc.woken
  }

  predicate CondSleeper(s: State, d: Cpu) {
    d in s.cpus && s.cpus[d].pc == StartWait(false)
  }

  predicate Enabled(s: State, c: Cpu, a: Action) {
    if a.Plug? then c !in s.cpus && s.mutex.None?
    else
      && c in s.cpus
      && var pc := s.cpus[c].pc;
         match a
         case Plug => false
         case Unplug => s.mutex.None? && pc.Outside? && s.cpus[c].nesting == 0
         case StartExclusive => pc.Outside?
         case EndExclusive => pc.Outside? && s.cpus[c].nesting > 0
         case ExecStart => pc.Outside?
         case ExecEnd => pc.Executing?
         case Examine(d) => pc.StartScan? && d in pc.todo && d in s.cpus
         case SignalTo(d) => pc.LeaveSignal? && s.pending == 1 && CondSleeper(s, d)
         case Spurious => Asleep(pc)
         case Advance =>
           && !pc.Outside? && !pc.Executing? && !Asleep(pc)
           && (Acquires(pc) ==> s.mutex.None?)
           && (pc.StartScan? ==> pc.todo == {})
           // a signal reaches a sleeper whenever there is one
           && (pc.LeaveSignal? && s.pending == 1 ==> forall d | d in s.cpus :: !CondSleeper(s, d))
  }

  function Move(s: State, c: Cpu, pc: Pc): State
    requires c in s.cpus
  {
    s.(cpus := s.cpus[c := s.cpus[c].(pc := pc)])
  }

  function Lock(s: State, c: Cpu, pc: Pc): State
    requires c in s.cpus
  {
    Move(s, c, pc).(mutex := Some(c))
  }

  function Unlock(s: State, c: Cpu, pc: Pc): State
    requires c in s.cpus
  {
    Move(s, c, pc).(mutex := None)
  }

  /** Write of a CPU's running flag by its own thread. */
  function Mark(s: State, c: Cpu, running: bool, pc: Pc): State
    requires c in s.cpus
  {
    s.(cpus := s.cpus[c := s.cpus[c].(running := running, pc := pc)])
  }

  function WakeIdle(x: CpuState): CpuState {
    match x.pc
    case StartIdleWait(_) => x.(pc := StartIdleWait(true))
    case ExecIdleWait(_) => x.(pc := ExecIdleWait(true))
    case _ => x
  }

  function Broadcast(s: State): State {
    s.(cpus := map d | d in s.cpus :: WakeIdle(s.cpus[d]))
  }

  function Apply(s: State, c: Cpu, a: Action): State
    requires Enabled(s, c, a)
  {
    match a
    case Plug => s.(cpus := s.cpus[c := CpuState(Outside, false, false, 0)])
    case Unplug => s.(cpus := s.cpus - {c})
    case StartExclusive =>
      var x := s.cpus[c];
      if x.nesting > 0 then s.(cpus := s.cpus[c := x.(nesting := x.nesting + 1)]) else Move(s, c, StartLock)
    case EndExclusive =>
      var x := s.cpus[c];
      s.(cpus := s.cpus[c := x.(nesting := x.nesting - 1, pc := if x.nesting > 1 then Outside else EndLock)])
    case ExecStart => Move(s, c, ExecMark)
    case ExecEnd => Move(s, c, LeaveUnmark)
    case Examine(d) =>
      var pc := s.cpus[c].pc;
      if s.cpus[d].running then
        Move(s.(cpus := s.cpus[d := s.cpus[d].(hasWaiter := true)]), c, StartScan(pc.todo - {d}, pc.counted + 1))
      else
        Move(s, c, StartScan(pc.todo - {d}, pc.counted))
    case SignalTo(d) =>
      Move(Move(s, d, StartWait(true)), c, LeaveUnlock)
    case Spurious =>
      Move(s, c, s.cpus[c].pc.(woken := true))
    case Advance => Access(s, c)
  }

  predicate StartPc(pc: Pc) {
    || pc.StartLock? || pc.StartIdle? || pc.StartIdleWait? || pc.StartClaim? || pc.StartScan? || pc.StartPublish?
    || pc.StartCheck? || pc.StartWait? || pc.StartUnlock? || pc.StartEnter?
  }

  predicate EndPc(pc: Pc) {
    pc.EndLock? || pc.EndClear? || pc.EndBroadcast? || pc.EndUnlock?
  }

  predicate ExecPc(pc: Pc) {
    || pc.ExecMark? || pc.ExecProbe? || pc.ExecLock? || pc.ExecTest? || pc.ExecUnmark? || pc.ExecIdle?
    || pc.ExecIdleWait? || pc.ExecRemark? || pc.ExecUnlock?
  }

  predicate LeavePc(pc: Pc) {
    || pc.LeaveUnmark? || pc.LeaveProbe? || pc.LeaveLock? || pc.LeaveTest? || pc.LeaveCount? || pc.LeaveSignal?
    || pc.LeaveUnlock?
  }

  function Access(s: State, c: Cpu): State
    requires Enabled(s, c, Advance)
  {
    var pc := s.cpus[c].pc;
    if StartPc(pc) then StartAccess(s, c)
    else if EndPc(pc) then EndAccess(s, c)
    else if ExecPc(pc) then ExecAccess(s, c)
    else LeaveAccess(s, c)
  }

  /** start_exclusive */
  function StartAccess(s: State, c: Cpu): State
    requires c in s.cpus && StartPc(s.cpus[c].pc)
  {
    match s.cpus[c].pc
    case StartLock => Lock(s, c, StartIdle)
    case StartIdle => if s.pending != 0 then Unlock(s, c, StartIdleWait(false)) else Move(s, c, StartClaim)
    case StartIdleWait(_) => Lock(s, c, StartIdle)
    case StartClaim => Move(s, c, StartScan(s.cpus.Keys, 0)).(pending := 1)
    case StartScan(_, k) => Move(s, c, StartPublish(k))
    case StartPublish(k) => Move(s, c, StartCheck).(pending := k + 1)
    case StartCheck => if s.pending > 1 then Unlock(s, c, StartWait(false)) else Move(s, c, StartUnlock)
    case StartWait(_) => Lock(s, c, StartCheck)
    case StartUnlock => Unlock(s, c, StartEnter)
    case StartEnter => s.(cpus := s.cpus[c := s.cpus[c].(nesting := 1, pc := Outside)])
  }

  /** end_exclusive */
  function EndAccess(s: State, c: Cpu): State
    requires c in s.cpus && EndPc(s.cpus[c].pc)
  {
    match s.cpus[c].pc
    case EndLock => Lock(s, c, EndClear)
    case EndClear => Move(s, c, EndBroadcast).(pending := 0)
    case EndBroadcast => Move(Broadcast(s), c, EndUnlock)
    case EndUnlock => Unlock(s, c, Outside)
  }

  /** cpu_exec_start */
  function ExecAccess(s: State, c: Cpu): State
    requires c in s.cpus && ExecPc(s.cpus[c].pc)
  {
    match s.cpus[c].pc
    case ExecMark => Mark(s, c, true, ExecProbe)
    case ExecProbe => Move(s, c, if s.pending != 0 then ExecLock else Executing)
    case ExecLock => Lock(s, c, ExecTest)
    case ExecTest => Move(s, c, if s.cpus[c].hasWaiter then ExecUnlock else ExecUnmark)
    case ExecUnmark => Mark(s, c, false, ExecIdle)
    case ExecIdle => if s.pending != 0 then Unlock(s, c, ExecIdleWait(false)) else Move(s, c, ExecRemark)
    case ExecIdleWait(_) => Lock(s, c, ExecIdle)
    case ExecRemark => Mark(s, c, true, ExecUnlock)
    case ExecUnlock => Unlock(s, c, Executing)
  }

  /** cpu_exec_end */
  function LeaveAccess(s: State, c: Cpu): State
    requires c in s.cpus && LeavePc(s.cpus[c].pc)
  {
    match s.cpus[c].pc
    case LeaveUnmark => Mark(s, c, false, LeaveProbe)
    case LeaveProbe => Move(s, c, if s.pending != 0 then LeaveLock else Outside)
    case LeaveLock => Lock(s, c, LeaveTest)
    case LeaveTest =>
      if s.cpus[c].hasWaiter then
        s.(cpus := s.cpus[c := s.cpus[c].(hasWaiter := false, pc := LeaveCount)])
      else
        Move(s, c, LeaveUnlock)
    case LeaveCount => Move(s, c, LeaveSignal).(pending := s.pending - 1)
    case LeaveSignal => Move(s, c, LeaveUnlock)
    case LeaveUnlock => Unlock(s, c, Outside)
  }

  // ----------------------------------------------------------------- runs

  datatype Event = Event(cpu: Cpu, action: Action)

  /** `states` is the sequence of states that `events` drives the initial state through. */
  ghost predicate IsRun(states: seq<State>, events: seq<Event>) {
    && |states| == |events| + 1
    && states[0] == INITIAL
    && forall i | 0 <= i < |events| ::
         && Enabled(states[i], events[i].cpu, events[i].action)
         && states[i + 1] == Apply(states[i], events[i].cpu, events[i].action)
  }

  ghost predicate Reachable(s: State) {
    exists states, events :: IsRun(states, events) && s == states[|states| - 1]
  }

  // ------------------------------------------------------------ invariant

  function Waiters(s: State): set<Cpu> {
    set d | d in s.cpus && s.cpus[d].hasWaiter
  }

  /** The thread has claimed `pending_cpus` and has not given it back. */
  predicate Owns(x: CpuState) {
    || x.nesting > 0
    || x.pc.StartScan? || x.pc.StartPublish? || x.pc.StartCheck? || x.pc.StartWait? || x.pc.StartUnlock?
    || x.pc.StartEnter? || x.pc.EndLock? || x.pc.EndClear?
  }

  /** Program points at which the thread's own `running` flag is set. */
  predicate Running(pc: Pc) {
    || pc.ExecProbe? || pc.ExecLock? || pc.ExecTest? || pc.ExecUnmark? || pc.ExecUnlock?
    || pc.Executing? || pc.LeaveUnmark?
  }

  /** Program points that have passed the gate of cpu_exec_start. */
  predicate PastGate(pc: Pc) {
    pc.ExecUnlock? || pc.Executing? || pc.LeaveUnmark?
  }

  /** Program points at which the thread may be counted by a starter. */
  predicate MayBeCounted(pc: Pc) {
    || pc.ExecProbe? || pc.ExecLock? || pc.ExecTest? || PastGate(pc)
    || pc.LeaveProbe? || pc.LeaveLock? || pc.LeaveTest?
  }

  /** Where a thread inside its own exclusive section can be. */
  predicate MayNest(pc: Pc) {
    || pc.Outside? || pc.ExecMark? || pc.ExecProbe? || pc.ExecLock? || pc.ExecTest? || pc.ExecUnmark?
    || pc.ExecIdle? || pc.ExecIdleWait?
  }

  /** Where the holder of the lock is; Outside stands for a free lock. */
  function HolderPc(s: State): Pc {
    if s.mutex.Some? && s.mutex.value in s.cpus then s.cpus[s.mutex.value].pc else Outside
  }

  /** What a thread's program point says about its own flags and the shared variables; `holder` is where the
      holder of the lock is. */
  predicate LocalOk(x: CpuState, holds: bool, pending: int, holder: Pc) {
    && (Holds(x.pc) <==> holds)
    && (x.running <==> Running(x.pc))
    && (x.hasWaiter ==> MayBeCounted(x.pc))
    && (x.nesting > 0 ==> MayNest(x.pc))
    && (x.pc.StartClaim? || x.pc.ExecRemark? || x.pc.EndBroadcast? ==> pending == 0)
    && ((x.pc == StartIdleWait(false) || x.pc == ExecIdleWait(false)) && pending == 0 ==> holder.EndBroadcast?)
  }

  /** What the owner's program point says about `pending_cpus` and the counted CPUs. */
  predicate OwnerOk(pc: Pc, pending: int, counted: set<Cpu>, holder: Pc) {
    match pc
    case StartScan(todo, k) => pending == 1 && k == |counted| && todo !! counted
    case StartPublish(k) => pending == 1 && k == |counted|
    case StartCheck => pending == 1 + |counted|
    case StartWait(woken) =>
      && pending == 1 + |counted| + (if holder.LeaveCount? then 1 else 0)
      && (pending == 1 && !woken ==> holder.LeaveSignal?)
    case _ => pending == 1 && counted == {}
  }

  /** A CPU past the gate is counted by the owner, or the owner has yet to look at it. */
  predicate GateOk(owner: Pc, c: Cpu, x: CpuState) {
    PastGate(x.pc) ==> x.hasWaiter || (owner.StartScan? && c in owner.todo)
  }

  /** What the invariant says about thread `c`, given the owner and the counted CPUs. */
  predicate Ground(s: State, owner: Option<Cpu>, counted: set<Cpu>, c: Cpu) {
    && c in s.cpus
    && var x := s.cpus[c];
    && LocalOk(x, s.mutex == Some(c), s.pending, HolderPc(s))
    && (Owns(x) <==> owner == Some(c))
    && (x.hasWaiter <==> c in counted)
    && (x.pc.StartScan? ==> x.pc.todo <= s.cpus.Keys)
    && match owner
       case None => true
       case Some(o) =>
         && o in s.cpus
         && GateOk(s.cpus[o].pc, c, x)
         && (o == c ==> OwnerOk(x.pc, s.pending, counted, HolderPc(s)))
  }

  predicate Global(s: State, owner: Option<Cpu>, counted: set<Cpu>) {
    && (s.mutex.Some? ==> s.mutex.value in s.cpus)
    && counted <= s.cpus.Keys
    && (owner.None? <==> s.pending == 0)
    && (owner.None? ==> counted == {})
    && (owner.Some? ==> owner.value in s.cpus)
    && (HolderPc(s).LeaveCount? ==> owner.Some? && s.cpus[owner.value].pc.StartWait?)
  }

  predicate InvFor(s: State, owner: Option<Cpu>, counted: set<Cpu>) {
    && Global(s, owner, counted)
    && forall c | c in s.cpus :: Ground(s, owner, counted, c)
  }

  ghost predicate Inv(s: State) {
    exists owner, counted :: InvFor(s, owner, counted)
  }

  /** How a step changes the owner. */
  function OwnerAfter(s: State, owner: Option<Cpu>, c: Cpu, a: Action): Option<Cpu>
    requires Enabled(s, c, a)
  {
    if a.Advance? && s.cpus[c].pc.StartClaim? then Some(c)
    else if a.Advance? && s.cpus[c].pc.EndClear? then None
    else owner
  }

  /** How a step changes the set of counted CPUs. */
  function CountedAfter(s: State, counted: set<Cpu>, c: Cpu, a: Action): set<Cpu>
    requires Enabled(s, c, a)
  {
    if a.Examine? && s.cpus[a.other].running then counted + {a.other}
    else if a.Advance? && s.cpus[c].pc.LeaveTest? then counted - {c}
    else counted
  }

  // -------------------------------------------------- every step keeps it

  /** The step changes no thread but `c`, neither `pending_cpus` nor a has_waiter flag, and the lock only as its
      program points say. */
  predicate Quiet(s: State, s': State, c: Cpu) {
    && c in s.cpus && c in s'.cpus
    && s'.cpus == s.cpus[c := s'.cpus[c]]
    && s'.pending == s.pending
    && var x, x' := s.cpus[c], s'.cpus[c];
       && x'.hasWaiter == x.hasWaiter
       && !x.pc.EndBroadcast? && !x.pc.LeaveCount? && !x.pc.LeaveSignal? && !x.pc.StartScan?
       && !x'.pc.LeaveCount? && !x'.pc.StartScan?
       && (Holds(x'.pc) ==> s.mutex == None || s.mutex == Some(c))
       && s'.mutex == if Holds(x'.pc) then Some(c) else if s.mutex == Some(c) then None else s.mutex
  }

  lemma QuietOther(s: State, s': State, owner: Option<Cpu>, counted: set<Cpu>, c: Cpu, d: Cpu)
    requires Quiet(s, s', c) && d != c
    requires Global(s, owner, counted) && Ground(s, owner, counted, c) && Ground(s, owner, counted, d)
    ensures Ground(s', owner, counted, d)
  {
  }

  lemma QuietKeeps(s: State, s': State, owner: Option<Cpu>, counted: set<Cpu>, c: Cpu)
    requires InvFor(s, owner, counted) && Quiet(s, s', c) && Ground(s', owner, counted, c)
    ensures InvFor(s', owner, counted)
  {
    forall d | d in s'.cpus
      ensures Ground(s', owner, counted, d)
    {
      if d != c { QuietOther(s, s', owner, counted, c, d); }
    }
  }

  /** A step that needs the lock finds it free. */
  predicate LockFree(s: State, c: Cpu) {
    c in s.cpus && (Acquires(s.cpus[c].pc) ==> s.mutex.None?)
  }

  lemma CallGround(s: State, owner: Option<Cpu>, counted: set<Cpu>, c: Cpu, a: Action)
    requires Global(s, owner, counted) && Ground(s, owner, counted, c) && Enabled(s, c, a) && (a.StartExclusive? || a.EndExclusive?)
    ensures Quiet(s, Apply(s, c, a), c) && Ground(Apply(s, c, a), owner, counted, c)
  {
  }

  lemma ExecCallGround(s: State, owner: Option<Cpu>, counted: set<Cpu>, c: Cpu, a: Action)
    requires Global(s, owner, counted) && Ground(s, owner, counted, c) && Enabled(s, c, a) && (a.ExecStart? || a.ExecEnd?)
    ensures Quiet(s, Apply(s, c, a), c) && Ground(Apply(s, c, a), owner, counted, c)
  {
  }

  lemma StartIdleGround(s: State, owner: Option<Cpu>, counted: set<Cpu>, c: Cpu)
    requires Global(s, owner, counted) && Ground(s, owner, counted, c) && LockFree(s, c)
    requires var pc := s.cpus[c].pc; pc.StartLock? || pc.StartIdle? || pc.StartIdleWait?
    ensures Quiet(s, StartAccess(s, c), c) && Ground(StartAccess(s, c), owner, counted, c)
  {
  }

  lemma StartWaitGround(s: State, owner: Option<Cpu>, counted: set<Cpu>, c: Cpu)
    requires Global(s, owner, counted) && Ground(s, owner, counted, c) && LockFree(s, c)
    requires var pc := s.cpus[c].pc; pc.StartCheck? || pc.StartWait? || pc.StartUnlock? || pc.StartEnter?
    ensures Quiet(s, StartAccess(s, c), c) && Ground(StartAccess(s, c), owner, counted, c)
  {
  }

  lemma EndGround(s: State, owner: Option<Cpu>, counted: set<Cpu>, c: Cpu)
    requires Global(s, owner, counted) && Ground(s, owner, counted, c) && LockFree(s, c)
    requires var pc := s.cpus[c].pc; pc.EndLock? || pc.EndUnlock?
    ensures Quiet(s, EndAccess(s, c), c) && Ground(EndAccess(s, c), owner, counted, c)
  {
  }

  lemma ExecProbeGround(s: State, owner: Option<Cpu>, counted: set<Cpu>, c: Cpu)
    requires Global(s, owner, counted) && Ground(s, owner, counted, c) && LockFree(s, c)
    requires var pc := s.cpus[c].pc; pc.ExecMark? || pc.ExecProbe? || pc.ExecLock?
    ensures Quiet(s, ExecAccess(s, c), c) && Ground(ExecAccess(s, c), owner, counted, c)
  {
  }

  lemma ExecTestGround(s: State, owner: Option<Cpu>, counted: set<Cpu>, c: Cpu)
    requires Global(s, owner, counted) && Ground(s, owner, counted, c) && LockFree(s, c)
    requires var pc := s.cpus[c].pc; pc.ExecTest? || pc.ExecUnmark? || pc.ExecUnlock?
    ensures Quiet(s, ExecAccess(s, c), c) && Ground(ExecAccess(s, c), owner, counted, c)
  {
  }

  lemma ExecIdleGround(s: State, owner: Option<Cpu>, counted: set<Cpu>, c: Cpu)
    requires Global(s, owner, counted) && Ground(s, owner, counted, c) && LockFree(s, c)
    requires var pc := s.cpus[c].pc; pc.ExecIdle? || pc.ExecIdleWait? || pc.ExecRemark?
    ensures Quiet(s, ExecAccess(s, c), c) && Ground(ExecAccess(s, c), owner, counted, c)
  {
  }

  lemma LeaveProbeGround(s: State, owner: Option<Cpu>, counted: set<Cpu>, c: Cpu)
    requires Global(s, owner, counted) && Ground(s, owner, counted, c) && LockFree(s, c)
    requires var pc := s.cpus[c].pc; pc.LeaveUnmark? || pc.LeaveProbe? || pc.LeaveLock?
    ensures Quiet(s, LeaveAccess(s, c), c) && Ground(LeaveAccess(s, c), owner, counted, c)
  {
  }

  lemma LeaveTestGround(s: State, owner: Option<Cpu>, counted: set<Cpu>, c: Cpu)
    requires Global(s, owner, counted) && Ground(s, owner, counted, c) && LockFree(s, c)
    requires var pc := s.cpus[c].pc; pc.LeaveUnlock? || (pc.LeaveTest? && !s.cpus[c].hasWaiter)
    ensures Quiet(s, LeaveAccess(s, c), c) && Ground(LeaveAccess(s, c), owner, counted, c)
  {
  }

  lemma ClaimGround(s: State, owner: Option<Cpu>, counted: set<Cpu>, c: Cpu, d: Cpu)
    requires Global(s, owner, counted) && Ground(s, owner, counted, c) && Ground(s, owner, counted, d)
    requires s.cpus[c].pc.StartClaim?
    ensures Ground(StartAccess(s, c), Some(c), counted, d)
  {
  }

  lemma PublishGround(s: State, owner: Option<Cpu>, counted: set<Cpu>, c: Cpu, d: Cpu)
    requires Global(s, owner, counted) && Ground(s, owner, counted, c) && Ground(s, owner, counted, d)
    requires (s.cpus[c].pc.StartScan? && s.cpus[c].pc.todo == {}) || s.cpus[c].pc.StartPublish?
    ensures Ground(StartAccess(s, c), owner, counted, d)
  {
  }

  lemma ExamineGround(s: State, owner: Option<Cpu>, counted: set<Cpu>, c: Cpu, a: Action, d: Cpu)
    requires Global(s, owner, counted) && Ground(s, owner, counted, c) && Ground(s, owner, counted, d)
    requires a.Examine? && Enabled(s, c, a)
    ensures Ground(Apply(s, c, a), owner, CountedAfter(s, counted, c, a), d)
  {
  }

  lemma ClearGround(s: State, owner: Option<Cpu>, counted: set<Cpu>, c: Cpu, d: Cpu)
    requires Global(s, owner, counted) && Ground(s, owner, counted, c) && Ground(s, owner, counted, d)
    requires s.cpus[c].pc.EndClear?
    ensures Ground(EndAccess(s, c), None, counted, d)
  {
  }

  lemma BroadcastGround(s: State, owner: Option<Cpu>, counted: set<Cpu>, c: Cpu, d: Cpu)
    requires Global(s, owner, counted) && Ground(s, owner, counted, c) && Ground(s, owner, counted, d)
    requires s.cpus[c].pc.EndBroadcast?
    ensures Ground(EndAccess(s, c), owner, counted, d)
  {
  }

  lemma UncountGround(s: State, owner: Option<Cpu>, counted: set<Cpu>, c: Cpu, d: Cpu)
    requires Global(s, owner, counted) && Ground(s, owner, counted, c) && Ground(s, owner, counted, d)
    requires s.cpus[c].pc.LeaveTest? && s.cpus[c].hasWaiter
    ensures Ground(LeaveAccess(s, c), owner, counted - {c}, d)
  {
  }

  lemma CountGround(s: State, owner: Option<Cpu>, counted: set<Cpu>, c: Cpu, d: Cpu)
    requires Global(s, owner, counted) && Ground(s, owner, counted, c) && Ground(s, owner, counted, d)
    requires s.cpus[c].pc.LeaveCount? && (owner.Some? ==> Ground(s, owner, counted, owner.value))
    ensures Ground(LeaveAccess(s, c), owner, counted, d)
  {
  }

  lemma NoSignalGround(s: State, owner: Option<Cpu>, counted: set<Cpu>, c: Cpu, d: Cpu)
    requires Global(s, owner, counted) && Ground(s, owner, counted, c) && Ground(s, owner, counted, d)
    requires s.cpus[c].pc.LeaveSignal? && (s.pending == 1 ==> !CondSleeper(s, d))
    ensures Ground(LeaveAccess(s, c), owner, counted, d)
  {
  }

  lemma SignalGround(s: State, owner: Option<Cpu>, counted: set<Cpu>, c: Cpu, a: Action, d: Cpu)
    requires Global(s, owner, counted) && Ground(s, owner, counted, c) && Ground(s, owner, counted, d)
    requires a.SignalTo? && Enabled(s, c, a) && Ground(s, owner, counted, a.sleeper)
    ensures Ground(Apply(s, c, a), owner, counted, d)
  {
  }

  lemma PlugGround(s: State, owner: Option<Cpu>, counted: set<Cpu>, c: Cpu, a: Action, d: Cpu)
    requires Global(s, owner, counted) && Enabled(s, c, a) && (a.Plug? || a.Unplug?)
    requires d in Apply(s, c, a).cpus && owner != Some(c) && c !in counted
    requires d != c ==> Ground(s, owner, counted, d)
    ensures Ground(Apply(s, c, a), owner, counted, d)
  {
  }

  lemma SpuriousGround(s: State, owner: Option<Cpu>, counted: set<Cpu>, c: Cpu)
    requires Global(s, owner, counted) && Ground(s, owner, counted, c) && Enabled(s, c, Spurious)
    ensures Quiet(s, Apply(s, c, Spurious), c) && Ground(Apply(s, c, Spurious), owner, counted, c)
  {
  }

  lemma PlugKeeps(s: State, owner: Option<Cpu>, counted: set<Cpu>, c: Cpu, a: Action)
    requires InvFor(s, owner, counted) && Enabled(s, c, a) && (a.Plug? || a.Unplug?)
    ensures InvFor(Apply(s, c, a), owner, counted)
  {
    forall d | d in Apply(s, c, a).cpus
      ensures Ground(Apply(s, c, a), owner, counted, d)
    {
      PlugGround(s, owner, counted, c, a, d);
    }
  }

  lemma StartKeeps(s: State, owner: Option<Cpu>, counted: set<Cpu>, c: Cpu)
    requires InvFor(s, owner, counted) && Enabled(s, c, Advance) && StartPc(s.cpus[c].pc)
    ensures InvFor(StartAccess(s, c), OwnerAfter(s, owner, c, Advance), counted)
  {
    var pc := s.cpus[c].pc;
    if pc.StartClaim? || pc.StartScan? || pc.StartPublish? {
      forall d | d in s.cpus
        ensures Ground(StartAccess(s, c), OwnerAfter(s, owner, c, Advance), counted, d)
      {
        if pc.StartClaim? { ClaimGround(s, owner, counted, c, d); } else { PublishGround(s, owner, counted, c, d); }
      }
    } else {
      if pc.StartLock? || pc.StartIdle? || pc.StartIdleWait? {
        StartIdleGround(s, owner, counted, c);
      } else {
        StartWaitGround(s, owner, counted, c);
      }
      QuietKeeps(s, StartAccess(s, c), owner, counted, c);
    }
  }

  lemma EndKeeps(s: State, owner: Option<Cpu>, counted: set<Cpu>, c: Cpu)
    requires InvFor(s, owner, counted) && Enabled(s, c, Advance) && EndPc(s.cpus[c].pc)
    ensures InvFor(EndAccess(s, c), OwnerAfter(s, owner, c, Advance), counted)
  {
    if s.cpus[c].pc.EndClear? || s.cpus[c].pc.EndBroadcast? {
      EndTouches(s, owner, counted, c);
    } else {
      EndGround(s, owner, counted, c);
      QuietKeeps(s, EndAccess(s, c), owner, counted, c);
    }
  }

  lemma EndTouches(s: State, owner: Option<Cpu>, counted: set<Cpu>, c: Cpu)
    requires InvFor(s, owner, counted) && Enabled(s, c, Advance)
    requires s.cpus[c].pc.EndClear? || s.cpus[c].pc.EndBroadcast?
    ensures InvFor(EndAccess(s, c), OwnerAfter(s, owner, c, Advance), counted)
  {
    forall d | d in s.cpus
      ensures Ground(EndAccess(s, c), OwnerAfter(s, owner, c, Advance), counted, d)
    {
      if s.cpus[c].pc.EndClear? { ClearGround(s, owner, counted, c, d); } else { BroadcastGround(s, owner, counted, c, d); }
    }
  }

  lemma ExecKeeps(s: State, owner: Option<Cpu>, counted: set<Cpu>, c: Cpu)
    requires InvFor(s, owner, counted) && Enabled(s, c, Advance) && ExecPc(s.cpus[c].pc)
    ensures InvFor(ExecAccess(s, c), owner, counted)
  {
    var pc := s.cpus[c].pc;
    if pc.ExecMark? || pc.ExecProbe? || pc.ExecLock? {
      ExecProbeGround(s, owner, counted, c);
    } else if pc.ExecTest? || pc.ExecUnmark? || pc.ExecUnlock? {
      ExecTestGround(s, owner, counted, c);
    } else {
      ExecIdleGround(s, owner, counted, c);
    }
    QuietKeeps(s, ExecAccess(s, c), owner, counted, c);
  }

  lemma LeaveKeeps(s: State, owner: Option<Cpu>, counted: set<Cpu>, c: Cpu)
    requires InvFor(s, owner, counted) && Enabled(s, c, Advance) && LeavePc(s.cpus[c].pc)
    ensures InvFor(LeaveAccess(s, c), owner, CountedAfter(s, counted, c, Advance))
  {
    var pc := s.cpus[c].pc;
    if pc.LeaveCount? || pc.LeaveSignal? || (pc.LeaveTest? && s.cpus[c].hasWaiter) {
      LeaveTouches(s, owner, counted, c);
    } else {
      if pc.LeaveUnmark? || pc.LeaveProbe? || pc.LeaveLock? {
        LeaveProbeGround(s, owner, counted, c);
      } else {
        LeaveTestGround(s, owner, counted, c);
      }
      assert CountedAfter(s, counted, c, Advance) == counted;
      QuietKeeps(s, LeaveAccess(s, c), owner, counted, c);
    }
  }

  lemma LeaveTouches(s: State, owner: Option<Cpu>, counted: set<Cpu>, c: Cpu)
    requires InvFor(s, owner, counted) && Enabled(s, c, Advance)
    requires var pc := s.cpus[c].pc; pc.LeaveCount? || pc.LeaveSignal? || (pc.LeaveTest? && s.cpus[c].hasWaiter)
    ensures InvFor(LeaveAccess(s, c), owner, CountedAfter(s, counted, c, Advance))
  {
    var pc := s.cpus[c].pc;
    forall d | d in s.cpus
      ensures Ground(LeaveAccess(s, c), owner, CountedAfter(s, counted, c, Advance), d)
    {
      if pc.LeaveCount? { CountGround(s, owner, counted, c, d); }
      else if pc.LeaveSignal? { NoSignalGround(s, owner, counted, c, d); }
      else { UncountGround(s, owner, counted, c, d); }
    }
  }

  lemma CallKeeps(s: State, owner: Option<Cpu>, counted: set<Cpu>, c: Cpu, a: Action)
    requires InvFor(s, owner, counted) && Enabled(s, c, a)
    requires a.StartExclusive? || a.EndExclusive? || a.ExecStart? || a.ExecEnd? || a.Spurious?
    ensures InvFor(Apply(s, c, a), owner, counted)
  {
    if a.Spurious? {
      SpuriousGround(s, owner, counted, c);
    } else if a.StartExclusive? || a.EndExclusive? {
      CallGround(s, owner, counted, c, a);
    } else {
      ExecCallGround(s, owner, counted, c, a);
    }
    QuietKeeps(s, Apply(s, c, a), owner, counted, c);
  }

  lemma TouchGlobal(s: State, owner: Option<Cpu>, counted: set<Cpu>, c: Cpu, a: Action)
    requires InvFor(s, owner, counted) && Enabled(s, c, a) && (a.Examine? || a.SignalTo?)
    ensures Global(Apply(s, c, a), owner, CountedAfter(s, counted, c, a)) && Apply(s, c, a).cpus.Keys == s.cpus.Keys
    ensures a.SignalTo? ==> CountedAfter(s, counted, c, a) == counted
  {
    assert Ground(s, owner, counted, c);
    if a.SignalTo? {
      assert Ground(s, owner, counted, a.sleeper);
    }
  }

  lemma TouchKeeps(s: State, owner: Option<Cpu>, counted: set<Cpu>, c: Cpu, a: Action)
    requires InvFor(s, owner, counted) && Enabled(s, c, a) && (a.Examine? || a.SignalTo?)
    ensures InvFor(Apply(s, c, a), owner, CountedAfter(s, counted, c, a))
  {
    TouchGlobal(s, owner, counted, c, a);
    hide Ground, Global, Apply;
    forall d | d in s.cpus
      ensures Ground(Apply(s, c, a), owner, CountedAfter(s, counted, c, a), d)
    {
      if a.Examine? { ExamineGround(s, owner, counted, c, a, d); } else { SignalGround(s, owner, counted, c, a, d); }
    }
  }

  /** Every atomic access of every thread keeps the invariant. */
  lemma StepKeeps(s: State, owner: Option<Cpu>, counted: set<Cpu>, c: Cpu, a: Action)
    requires InvFor(s, owner, counted) && Enabled(s, c, a)
    ensures InvFor(Apply(s, c, a), OwnerAfter(s, owner, c, a), CountedAfter(s, counted, c, a))
  {
    if a.Plug? || a.Unplug? {
      PlugKeeps(s, owner, counted, c, a);
    } else if a.Advance? {
      var pc := s.cpus[c].pc;
      if StartPc(pc) { StartKeeps(s, owner, counted, c); }
      else if EndPc(pc) { EndKeeps(s, owner, counted, c); }
      else if ExecPc(pc) { ExecKeeps(s, owner, counted, c); }
      else { LeaveKeeps(s, owner, counted, c); }
    } else if a.Examine? || a.SignalTo? {
      TouchKeeps(s, owner, counted, c, a);
    } else {
      CallKeeps(s, owner, counted, c, a);
    }
  }

  // --------------------------------------------- what holds in every run

  lemma {:induction false} RunKeeps(states: seq<State>, events: seq<Event>, i: nat)
    requires IsRun(states, events) && i < |states|
    ensures Inv(states[i])
  {
    if i == 0 {
      assert InvFor(INITIAL, None, {});
    } else {
      RunKeeps(states, events, i - 1);
      var owner, counted :| InvFor(states[i - 1], owner, counted);
      var e := events[i - 1];
      StepKeeps(states[i - 1], owner, counted, e.cpu, e.action);
    }
  }

  lemma ReachableInv(s: State) returns (owner: Option<Cpu>, counted: set<Cpu>)
    requires Reachable(s)
    ensures InvFor(s, owner, counted) && counted == Waiters(s)
  {
    var states, events :| IsRun(states, events) && s == states[|states| - 1];
    RunKeeps(states, events, |states| - 1);
    owner, counted :| InvFor(s, owner, counted);
    forall d
      ensures d in counted <==> d in Waiters(s)
    {
      if d in s.cpus { assert Ground(s, owner, counted, d); }
    }
  }

  /** Mutual exclusion.  While a thread is inside an exclusive section, at whatever nesting depth, no CPU is between
      cpu_exec_start and cpu_exec_end, no other thread is inside one, and `pending_cpus` is still held at 1, so a nested
      end_exclusive has released nothing. */
  lemma ExclusiveSectionIsExclusive(s: State, c: Cpu, d: Cpu)
    requires Reachable(s) && c in s.cpus && s.cpus[c].nesting > 0 && d in s.cpus
    ensures !s.cpus[d].pc.Executing?
    ensures d != c ==> s.cpus[d].nesting == 0
    ensures s.pending == 1 && Waiters(s) == {}
  {
    var owner, counted := ReachableInv(s);
    assert Ground(s, owner, counted, c) && Ground(s, owner, counted, d);
  }

  // ------------------------------------------------- in terms of the calls

  /** How many more calls of start_exclusive than of end_exclusive the CPU has made since it was plugged. */
  function Open(events: seq<Event>, c: Cpu): int {
    if events == [] then 0
    else
      var e, before := events[|events| - 1], Open(events[..|events| - 1], c);
      if e.cpu != c then before
      else if e.action.Plug? then 0
      else if e.action.StartExclusive? then before + 1
      else if e.action.EndExclusive? then before - 1
      else before
  }

  /** The CPU has called cpu_exec_start and not yet cpu_exec_end. */
  predicate Entered(events: seq<Event>, c: Cpu) {
    events != [] &&
    var e := events[|events| - 1];
    if e.cpu == c && e.action.ExecStart? then true
    else if e.cpu == c && (e.action.ExecEnd? || e.action.Plug?) then false
    else Entered(events[..|events| - 1], c)
  }

  /** What the calls made so far say about a thread's counter and program point. */
  predicate CallsOk(x: CpuState, depth: int, entered: bool) {
    && x.nesting + (if StartPc(x.pc) then 1 else 0) == depth
    && (entered <==> ExecPc(x.pc) || x.pc.Executing?)
  }

  /** Neither what the counter and program point say of the calls has changed. */
  predicate SameCalls(x: CpuState, y: CpuState) {
    && x.nesting + (if StartPc(x.pc) then 1 else 0) == y.nesting + (if StartPc(y.pc) then 1 else 0)
    && (ExecPc(x.pc) || x.pc.Executing? <==> ExecPc(y.pc) || y.pc.Executing?)
  }

  lemma WakeCalls(x: CpuState)
    ensures SameCalls(x, WakeIdle(x))
  {
  }

  lemma OthersCalls(s: State, c: Cpu, a: Action, d: Cpu)
    requires Enabled(s, c, a) && d in s.cpus && d != c
    ensures d in Apply(s, c, a).cpus && SameCalls(s.cpus[d], Apply(s, c, a).cpus[d])
  {
    WakeCalls(s.cpus[d]);
    var x, y := s.cpus[d], Apply(s, c, a).cpus[d];
    assert y == x || y == x.(hasWaiter := true) || y == WakeIdle(x) || (x.pc.StartWait? && y == x.(pc := StartWait(true)));
    hide Apply, WakeIdle;
  }

  lemma StartCalls(s: State, c: Cpu)
    requires c in s.cpus && StartPc(s.cpus[c].pc) && s.cpus[c].nesting == 0
    ensures SameCalls(s.cpus[c], StartAccess(s, c).cpus[c])
  {
  }

  lemma EndCalls(s: State, c: Cpu)
    requires c in s.cpus && EndPc(s.cpus[c].pc)
    ensures SameCalls(s.cpus[c], EndAccess(s, c).cpus[c])
  {
  }

  lemma ExecCalls(s: State, c: Cpu)
    requires c in s.cpus && ExecPc(s.cpus[c].pc)
    ensures SameCalls(s.cpus[c], ExecAccess(s, c).cpus[c])
  {
  }

  lemma LeaveCalls(s: State, c: Cpu)
    requires c in s.cpus && LeavePc(s.cpus[c].pc)
    ensures SameCalls(s.cpus[c], LeaveAccess(s, c).cpus[c])
  {
  }

  /** An access is part of a call, and neither makes one nor ends a section. */
  lemma AccessCalls(s: State, c: Cpu, a: Action)
    requires Enabled(s, c, a) && (a.Advance? || a.Examine? || a.SignalTo? || a.Spurious?)
    requires s.cpus[c].nesting > 0 ==> MayNest(s.cpus[c].pc)
    ensures c in Apply(s, c, a).cpus && SameCalls(s.cpus[c], Apply(s, c, a).cpus[c])
  {
    if a.Advance? {
      var pc := s.cpus[c].pc;
      hide StartAccess, EndAccess, ExecAccess, LeaveAccess;
      if StartPc(pc) {
        StartCalls(s, c);
      } else if EndPc(pc) {
        EndCalls(s, c);
      } else if ExecPc(pc) {
        ExecCalls(s, c);
      } else {
        LeaveCalls(s, c);
      }
      hide SameCalls;
    }
  }

  lemma OwnCalls(s: State, c: Cpu, a: Action)
    requires Enabled(s, c, a) && !a.Plug? && !a.Unplug?
    requires s.cpus[c].nesting > 0 ==> MayNest(s.cpus[c].pc)
    ensures c in Apply(s, c, a).cpus
    ensures var x, y := s.cpus[c], Apply(s, c, a).cpus[c];
            && y.nesting + (if StartPc(y.pc) then 1 else 0) == x.nesting + (if StartPc(x.pc) then 1 else 0) +
                 (if a.StartExclusive? then 1 else if a.EndExclusive? then -1 else 0)
            && (ExecPc(y.pc) || y.pc.Executing? <==>
                  a.ExecStart? || (!a.ExecEnd? && (ExecPc(x.pc) || x.pc.Executing?)))
  {
    if a.Advance? || a.Examine? || a.SignalTo? || a.Spurious? {
      AccessCalls(s, c, a);
      hide Apply;
    }
  }

  lemma CallStep(s: State, owner: Option<Cpu>, counted: set<Cpu>, e: Event, d: Cpu, depth: int, entered: bool)
    requires Enabled(s, e.cpu, e.action) && InvFor(s, owner, counted) && d in Apply(s, e.cpu, e.action).cpus
    requires d in s.cpus ==> CallsOk(s.cpus[d], depth, entered)
    ensures var x := Apply(s, e.cpu, e.action).cpus[d];
            var own := e.cpu == d;
            CallsOk(x, if !own then depth else if e.action.Plug? then 0 else if e.action.StartExclusive? then depth + 1
                       else if e.action.EndExclusive? then depth - 1 else depth,
                    if own && e.action.ExecStart? then true
                    else if own && (e.action.ExecEnd? || e.action.Plug?) then false else entered)
  {
    PluggedHere(s, e, d);
    if e.cpu != d {
      OthersCalls(s, e.cpu, e.action, d);
      hide Apply;
    } else if !e.action.Plug? {
      assert Ground(s, owner, counted, d);
      hide InvFor, Global;
      OwnCalls(s, d, e.action);
      hide Apply;
    }
  }

  /** Over every run: the nesting counter, and one for a call of start_exclusive that has not returned, is the number of
      sections the CPU has opened and not closed; and it is in cpu_exec_start or in guest code exactly if it has called
      cpu_exec_start and not yet cpu_exec_end. */
  lemma {:induction false} CallsCount(states: seq<State>, events: seq<Event>, i: nat, c: Cpu)
    requires IsRun(states, events) && i < |states| && c in states[i].cpus
    ensures CallsOk(states[i].cpus[c], Open(events[..i], c), Entered(events[..i], c))
  {
    if i > 0 {
      hide Apply, Enabled, InvFor;
      var s, e := states[i - 1], events[i - 1];
      RunKeeps(states, events, i - 1);
      var owner, counted :| InvFor(s, owner, counted);
      if c in s.cpus {
        CallsCount(states, events, i - 1, c);
      }
      CallStep(s, owner, counted, e, c, Open(events[..i - 1], c), Entered(events[..i - 1], c));
      assert events[..i][..i - 1] == events[..i - 1];
    }
  }

  lemma PluggedHere(s: State, e: Event, c: Cpu)
    requires Enabled(s, e.cpu, e.action) && c in Apply(s, e.cpu, e.action).cpus
    ensures c !in s.cpus ==> e.cpu == c && e.action.Plug?
    ensures e.action.Unplug? ==> e.cpu != c
  {
  }

  /** The call of start_exclusive, or of cpu_exec_start, has returned. */
  predicate Returned(x: CpuState) {
    !StartPc(x.pc) && !ExecPc(x.pc)
  }

  /** Mutual exclusion in terms of the calls: while a thread has called start_exclusive more often than end_exclusive and has
      returned from it, no CPU that has called cpu_exec_start and not cpu_exec_end has returned from that, and no other thread
      with such a surplus has returned from start_exclusive. */
  lemma SectionsExclude(states: seq<State>, events: seq<Event>, c: Cpu, d: Cpu)
    requires IsRun(states, events) && c in states[|events|].cpus && d in states[|events|].cpus
    requires Open(events, c) > 0 && !StartPc(states[|events|].cpus[c].pc)
    ensures Entered(events, d) ==> !Returned(states[|events|].cpus[d])
    ensures d != c && Open(events, d) > 0 ==> StartPc(states[|events|].cpus[d].pc)
  {
    assert events[..|events|] == events;
    CallsCount(states, events, |events|, c);
    CallsCount(states, events, |events|, d);
    assert Reachable(states[|events|]);
    ExclusiveSectionIsExclusive(states[|events|], c, d);
  }

  // ------------------------------------------------------ flags and counters

  /** The flag and counter protocol: `running` is set exactly on the stretch from the first store of cpu_exec_start to the
      first store of cpu_exec_end, except while that thread waits for a section to end; start_exclusive's assertion that
      the caller is not running holds. */
  lemma RunningFlag(s: State, c: Cpu)
    requires Reachable(s) && c in s.cpus
    ensures s.cpus[c].running <==> Running(s.cpus[c].pc)
    ensures s.cpus[c].pc.Outside? ==> !s.cpus[c].running && !s.cpus[c].hasWaiter
  {
    var owner, counted := ReachableInv(s);
    assert Ground(s, owner, counted, c);
  }

  /** Whenever the lock is free, `pending_cpus` is 0 and nobody is counted, or it is one more than the number of CPUs
      whose has_waiter is set. */
  lemma PendingCountsWaiters(s: State)
    requires Reachable(s) && s.mutex.None?
    ensures (s.pending == 0 && Waiters(s) == {}) || s.pending == 1 + |Waiters(s)|
  {
    var owner, counted := ReachableInv(s);
    if owner.Some? { assert Ground(s, owner, counted, owner.value); }
  }

  /** At most one thread sleeps on exclusive_cond, so one signal reaches every sleeper there is. */
  lemma OneSleeper(s: State, c: Cpu, d: Cpu)
    requires Reachable(s) && CondSleeper(s, c) && CondSleeper(s, d)
    ensures c == d
  {
    var owner, counted := ReachableInv(s);
    assert Ground(s, owner, counted, c) && Ground(s, owner, counted, d);
  }

  /** No wake-up is lost.  With the lock free, a starter asleep on exclusive_cond still has a counted CPU that has not left,
      and a thread asleep on exclusive_resume still has a section to wait for. */
  lemma NoLostWakeup(s: State, c: Cpu)
    requires Reachable(s) && s.mutex.None? && c in s.cpus && Asleep(s.cpus[c].pc)
    ensures s.cpus[c].pc.StartWait? ==>
              exists w :: w in Waiters(s) && w != c && MayBeCounted(s.cpus[w].pc)
    ensures !s.cpus[c].pc.StartWait? ==> exists o :: o in s.cpus && Owns(s.cpus[o])
  {
    var owner, counted := ReachableInv(s);
    assert Ground(s, owner, counted, c);
    if s.cpus[c].pc.StartWait? {
      assert |counted| > 0;
      var w :| w in counted;
      assert Ground(s, owner, counted, w);
    } else {
      assert Ground(s, owner, counted, owner.value);
    }
  }

  /** The thread has a next access, or is in guest code or in an exclusive section and can leave it. */
  ghost predicate CanMove(s: State, d: Cpu) {
    exists a :: Enabled(s, d, a) && (a.Advance? || a.Examine? || a.SignalTo? || a.ExecEnd? || a.EndExclusive?)
  }

  /** cpu_exec_start called from inside the caller's own exclusive section would wait for itself. */
  predicate NoSelfWait(s: State) {
    forall d | d in s.cpus && s.cpus[d].nesting > 0 :: !ExecPc(s.cpus[d].pc)
  }

  lemma HolderCanMove(s: State, owner: Option<Cpu>, counted: set<Cpu>, d: Cpu)
    requires Global(s, owner, counted) && Ground(s, owner, counted, d) && s.mutex == Some(d)
    ensures CanMove(s, d)
  {
    var pc := s.cpus[d].pc;
    if pc.StartScan? && pc.todo != {} {
      var e :| e in pc.todo;
      assert Enabled(s, d, Examine(e));
    } else if pc.LeaveSignal? && s.pending == 1 && exists e :: CondSleeper(s, e) {
      var e :| CondSleeper(s, e);
      assert Enabled(s, d, SignalTo(e));
    } else {
      assert Enabled(s, d, Advance);
    }
  }

  lemma CountedCanMove(s: State, owner: Option<Cpu>, counted: set<Cpu>, d: Cpu)
    requires Global(s, owner, counted) && Ground(s, owner, counted, d) && s.mutex.None? && d in counted
    ensures CanMove(s, d)
  {
    assert Enabled(s, d, if s.cpus[d].pc.Executing? then ExecEnd else Advance);
  }

  /** With the lock free, the owner can move unless it sleeps and waits for a counted CPU. */
  lemma OwnerCanMove(s: State, owner: Option<Cpu>, counted: set<Cpu>, d: Cpu)
    requires Global(s, owner, counted) && Ground(s, owner, counted, d) && s.mutex.None? && owner == Some(d)
    requires s.cpus[d].nesting > 0 ==> !ExecPc(s.cpus[d].pc)
    ensures s.cpus[d].pc == StartWait(false) || CanMove(s, d)
  {
    if s.cpus[d].pc != StartWait(false) {
      assert Enabled(s, d, if s.cpus[d].pc.Outside? then EndExclusive else Advance);
    }
  }

  /** No deadlock.  A thread that is asleep, or waits for the lock, leaves some other thread able to move. */
  lemma BlockedLeavesAnotherMoving(s: State, c: Cpu) returns (d: Cpu)
    requires Reachable(s) && NoSelfWait(s) && c in s.cpus
    requires Asleep(s.cpus[c].pc) || (Acquires(s.cpus[c].pc) && s.mutex.Some?)
    ensures d != c && CanMove(s, d)
  {
    var owner, counted := ReachableInv(s);
    assert Ground(s, owner, counted, c);
    if s.mutex.Some? {
      d := s.mutex.value;
      HolderCanMove(s, owner, counted, d);
    } else {
      d := owner.value;
      OwnerCanMove(s, owner, counted, d);
      if s.cpus[d].pc == StartWait(false) {
        assert |counted| > 0;
        d :| d in counted;
        CountedCanMove(s, owner, counted, d);
      }
    }
  }
}
