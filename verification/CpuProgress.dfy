/**
  Progress of the handshake of qemu/cpu-common.c.  From every reachable state the
  threads can run on until all of them have returned, without any spurious wake-up,
  unless one of them has called cpu_exec_start inside its own exclusive section: then
  they never can.
 */
module CpuProgress {
  import opened Wrappers
  import opened CpuExclusive

  // ---------------------------------------------------------- runs from here

  /** `events` drives the first of the states through the others. */
  ghost predicate IsPath(states: seq<State>, events: seq<Event>) {
    && |states| == |events| + 1
    && forall i | 0 <= i < |events| ::
         && Enabled(states[i], events[i].cpu, events[i].action)
         && states[i + 1] == Apply(states[i], events[i].cpu, events[i].action)
  }

  /** All threads have returned from all calls, and none is in a section. */
  predicate Quiescent(s: State) {
    forall c | c in s.cpus :: s.cpus[c].pc.Outside? && s.cpus[c].nesting == 0
  }

  /** What a thread does to come to an end: its next access, or the call that ends what it is in. */
  predicate Ending(a: Action) {
    a.Advance? || a.Examine? || a.SignalTo? || a.ExecEnd? || a.EndExclusive?
  }

  lemma Prepend(s: State, c: Cpu, a: Action, states: seq<State>, events: seq<Event>)
    requires Enabled(s, c, a) && IsPath(states, events) && states[0] == Apply(s, c, a)
    ensures IsPath([s] + states, [Event(c, a)] + events)
  {
    hide Enabled, Apply;
    var states', events' := [s] + states, [Event(c, a)] + events;
    forall i | 0 <= i < |events'|
      ensures Enabled(states'[i], events'[i].cpu, events'[i].action)
      ensures states'[i + 1] == Apply(states'[i], events'[i].cpu, events'[i].action)
    {
      if i > 0 {
        assert events'[i] == events[i - 1] && states'[i] == states[i - 1] && states'[i + 1] == states[i];
      }
    }
  }

  lemma Joined(states: seq<State>, events: seq<Event>, states': seq<State>, events': seq<Event>)
    requires IsPath(states, events) && IsPath(states', events') && states'[0] == states[|events|]
    ensures IsPath(states + states'[1..], events + events')
    ensures (states + states'[1..])[|events + events'|] == states'[|events'|]
  {
    hide Enabled, Apply;
    var all, both := states + states'[1..], events + events';
    assert forall k | 0 <= k < |states'| :: all[|events| + k] == states'[k];
    forall i | 0 <= i < |both|
      ensures Enabled(all[i], both[i].cpu, both[i].action) && all[i + 1] == Apply(all[i], both[i].cpu, both[i].action)
    {
      if i >= |events| {
        var k := i - |events|;
        assert both[i] == events'[k] && all[i] == states'[k] && all[i + 1] == states'[k + 1];
      }
    }
  }

  // --------------------------------------------------------------- the cost

  /** How far a thread is from having returned; `n` is the number of CPUs. */
  function Distance(pc: Pc, n: nat): nat {
    match pc
    case Outside => 0
    case EndUnlock => 1 case EndBroadcast => 2 case EndClear => 3 case EndLock => 4
    case StartEnter => 6 case StartUnlock => 7 case StartWait(_) => 8 case StartCheck => 9 case StartPublish(_) => 10
    case StartScan(todo, _) => 11 + |todo|
    case StartClaim => 12 + n case StartIdleWait(_) => 13 + n case StartIdle => 14 + n case StartLock => 15 + n
    case LeaveUnlock => 1 case LeaveSignal => 2 case LeaveCount => 3 case LeaveTest => 4 case LeaveLock => 5
    case LeaveProbe => 6 case LeaveUnmark => 7 case Executing => 8
    case ExecUnlock => 9 case ExecRemark => 10 case ExecIdleWait(_) => 11 case ExecIdle => 12 case ExecUnmark => 13
    case ExecTest => 14 case ExecLock => 15 case ExecProbe => 16 case ExecMark => 17
  }

  function Cost(x: CpuState, n: nat): nat {
    Distance(x.pc, n) + 5 * x.nesting
  }

  ghost function Costs(s: State): map<Cpu, nat> {
    map c | c in s.cpus :: Cost(s.cpus[c], |s.cpus|)
  }

  ghost function Sum(costs: map<Cpu, nat>): nat
    decreases |costs|
  {
    if costs == map[] then 0
    else
      var c :| c in costs;
      costs[c] + Sum(costs - {c})
  }

  lemma {:induction false} SumWithout(costs: map<Cpu, nat>, c: Cpu)
    requires c in costs
    ensures Sum(costs) == costs[c] + Sum(costs - {c})
    decreases |costs|
  {
    var d :| d in costs && Sum(costs) == costs[d] + Sum(costs - {d});
    if d != c {
      SumWithout(costs - {d}, c);
      SumWithout(costs - {c}, d);
      assert costs - {d} - {c} == costs - {c} - {d};
    }
  }

  lemma SumFalls(a: map<Cpu, nat>, b: map<Cpu, nat>, c: Cpu)
    requires c in a && c in b && a - {c} == b - {c} && b[c] < a[c]
    ensures Sum(b) < Sum(a)
  {
    SumWithout(a, c);
    SumWithout(b, c);
  }

  /** Nobody but `c` is further from the end, or nearer to it. */
  predicate OthersAsFar(s: State, s': State, c: Cpu) {
    s'.cpus.Keys == s.cpus.Keys &&
    forall d | d in s.cpus && d != c :: Cost(s'.cpus[d], |s.cpus|) == Cost(s.cpus[d], |s.cpus|)
  }

  lemma CostsFall(s: State, s': State, c: Cpu)
    requires c in s.cpus && OthersAsFar(s, s', c) && Cost(s'.cpus[c], |s.cpus|) < Cost(s.cpus[c], |s.cpus|)
    ensures Sum(Costs(s')) < Sum(Costs(s))
  {
    hide Cost;
    assert |s'.cpus.Keys| == |s'.cpus| && |s.cpus.Keys| == |s.cpus|;
    var a, b := Costs(s), Costs(s');
    assert a - {c} == b - {c};
    SumFalls(a, b, c);
  }

  lemma WokenAsFar(x: CpuState, n: nat)
    ensures Cost(WakeIdle(x), n) == Cost(x, n)
  {
  }

  lemma StepAsFar(s: State, c: Cpu, a: Action)
    requires Enabled(s, c, a) && Ending(a)
    ensures OthersAsFar(s, Apply(s, c, a), c)
  {
    forall d | d in s.cpus && d != c ensures Cost(Apply(s, c, a).cpus[d], |s.cpus|) == Cost(s.cpus[d], |s.cpus|) {
      OthersSame(s, c, a, d);
      WokenAsFar(s.cpus[d], |s.cpus|);
      hide Apply, WakeIdle;
    }
    SameCpus(s, c, a);
    hide Apply, Cost;
  }

  lemma SameCpus(s: State, c: Cpu, a: Action)
    requires Enabled(s, c, a) && Ending(a)
    ensures Apply(s, c, a).cpus.Keys == s.cpus.Keys
  {
  }

  /** What a step of `c` can do to another thread. */
  lemma OthersSame(s: State, c: Cpu, a: Action, d: Cpu)
    requires Enabled(s, c, a) && Ending(a) && d in s.cpus && d != c
    ensures d in Apply(s, c, a).cpus
    ensures var x, y := s.cpus[d], Apply(s, c, a).cpus[d];
            y == x || y == x.(hasWaiter := true) || y == WakeIdle(x) || (x.pc.StartWait? && y == x.(pc := StartWait(true)))
  {
    hide WakeIdle;
  }

  // --------------------------------------------- every chosen step is nearer

  /** Asleep, or woken and about to take the lock again. */
  predicate Waits(pc: Pc) {
    pc.StartIdleWait? || pc.StartWait? || pc.ExecIdleWait?
  }

  predicate Nearer(s: State, s': State, c: Cpu) {
    c in s.cpus && c in s'.cpus && Cost(s'.cpus[c], |s.cpus|) < Cost(s.cpus[c], |s.cpus|)
  }

  lemma StartNearer(s: State, c: Cpu)
    requires Enabled(s, c, Advance) && StartPc(s.cpus[c].pc) && !Waits(s.cpus[c].pc) && s.cpus[c].nesting == 0
    ensures Nearer(s, StartAccess(s, c), c)
  {
    assert |s.cpus.Keys| == |s.cpus|;
  }

  lemma EndNearer(s: State, c: Cpu)
    requires Enabled(s, c, Advance) && EndPc(s.cpus[c].pc)
    ensures Nearer(s, EndAccess(s, c), c)
  {
  }

  lemma ExecNearer(s: State, c: Cpu)
    requires Enabled(s, c, Advance) && ExecPc(s.cpus[c].pc) && !Waits(s.cpus[c].pc)
    ensures Nearer(s, ExecAccess(s, c), c)
  {
    ExecSameDepth(s, c);
    assert Distance(ExecAccess(s, c).cpus[c].pc, |s.cpus|) < Distance(s.cpus[c].pc, |s.cpus|);
    hide ExecAccess, Distance;
  }

  lemma LeaveNearer(s: State, c: Cpu)
    requires Enabled(s, c, Advance) && LeavePc(s.cpus[c].pc)
    ensures Nearer(s, LeaveAccess(s, c), c)
  {
    LeaveNotExec(s, c);
    assert Distance(LeaveAccess(s, c).cpus[c].pc, |s.cpus|) < Distance(s.cpus[c].pc, |s.cpus|);
    hide LeaveAccess, Distance;
  }

  lemma CallNearer(s: State, c: Cpu, a: Action)
    requires Enabled(s, c, a) && (a.ExecEnd? || a.EndExclusive?)
    ensures Nearer(s, Apply(s, c, a), c)
  {
  }

  lemma TouchNearer(s: State, c: Cpu, a: Action)
    requires Enabled(s, c, a) && (a.Examine? || a.SignalTo?)
    ensures Nearer(s, Apply(s, c, a), c)
  {
    if a.Examine? {
      assert |s.cpus[c].pc.todo - {a.other}| < |s.cpus[c].pc.todo|;
    }
  }

  lemma StepNearer(s: State, owner: Option<Cpu>, counted: set<Cpu>, c: Cpu, a: Action)
    requires Ground(s, owner, counted, c) && Enabled(s, c, a) && Ending(a) && !(a.Advance? && Waits(s.cpus[c].pc))
    ensures Nearer(s, Apply(s, c, a), c)
  {
    hide Nearer;
    if a.Advance? {
      var pc := s.cpus[c].pc;
      if StartPc(pc) { StartNearer(s, c); }
      else if EndPc(pc) { EndNearer(s, c); }
      else if ExecPc(pc) { ExecNearer(s, c); }
      else { LeaveNearer(s, c); }
    } else if a.Examine? || a.SignalTo? {
      TouchNearer(s, c, a);
    } else {
      CallNearer(s, c, a);
    }
  }

  /** A woken thread whose wait is over takes the lock and goes on: two accesses. */
  predicate WaitOver(s: State, c: Cpu) {
    && c in s.cpus && s.mutex.None?
    && (s.cpus[c].pc == StartIdleWait(true) || s.cpus[c].pc == ExecIdleWait(true) ==> s.pending == 0)
    && (s.cpus[c].pc == StartWait(true) ==> s.pending == 1)
    && (s.cpus[c].pc == StartIdleWait(true) || s.cpus[c].pc == StartWait(true) || s.cpus[c].pc == ExecIdleWait(true))
  }

  /** The lock is taken and the test passed. */
  predicate TwoSteps(s: State, c: Cpu, pc: Pc, pc': Pc) {
    && c in s.cpus && Enabled(s, c, Advance) && Apply(s, c, Advance) == Lock(s, c, pc)
    && Enabled(Lock(s, c, pc), c, Advance) && Apply(Lock(s, c, pc), c, Advance) == Move(Lock(s, c, pc), c, pc')
  }

  lemma IdleOver(s: State, c: Cpu)
    requires WaitOver(s, c) && s.cpus[c].pc.StartIdleWait?
    ensures TwoSteps(s, c, StartIdle, StartClaim)
  {
  }

  lemma CondOver(s: State, c: Cpu)
    requires WaitOver(s, c) && s.cpus[c].pc.StartWait?
    ensures TwoSteps(s, c, StartCheck, StartUnlock)
  {
  }

  lemma ExecOver(s: State, c: Cpu)
    requires WaitOver(s, c) && s.cpus[c].pc.ExecIdleWait?
    ensures TwoSteps(s, c, ExecIdle, ExecRemark)
  {
  }

  lemma WaitNearer(s: State, c: Cpu)
    requires WaitOver(s, c)
    ensures Enabled(s, c, Advance)
    ensures var s1 := Apply(s, c, Advance);
            Enabled(s1, c, Advance) && OthersAsFar(s, Apply(s1, c, Advance), c) && Nearer(s, Apply(s1, c, Advance), c)
  {
    hide Apply, Enabled;
    match s.cpus[c].pc
    case StartIdleWait(_) => IdleOver(s, c);
    case StartWait(_) => CondOver(s, c);
    case _ => ExecOver(s, c);
  }

  lemma KeepsNoSelfWait(s: State, c: Cpu, a: Action)
    requires Enabled(s, c, a) && Ending(a) && NoSelfWait(s)
    ensures NoSelfWait(Apply(s, c, a))
  {
    var s' := Apply(s, c, a);
    forall d | d in s'.cpus && s'.cpus[d].nesting > 0 ensures !ExecPc(s'.cpus[d].pc) {
      if d == c {
        OwnNoSelfWait(s, c, a);
      } else {
        OthersExec(s, c, a, d);
      }
    }
  }

  lemma OthersExec(s: State, c: Cpu, a: Action, d: Cpu)
    requires Enabled(s, c, a) && d != c && d in Apply(s, c, a).cpus && Ending(a)
    ensures d in s.cpus
    ensures var x, y := s.cpus[d], Apply(s, c, a).cpus[d]; y.nesting == x.nesting && (ExecPc(y.pc) <==> ExecPc(x.pc))
  {
    SameCpus(s, c, a);
    hide Apply;
    OthersSame(s, c, a, d);
  }

  lemma OwnNoSelfWait(s: State, c: Cpu, a: Action)
    requires Enabled(s, c, a) && Ending(a) && (s.cpus[c].nesting > 0 ==> !ExecPc(s.cpus[c].pc))
    ensures c in Apply(s, c, a).cpus
    ensures var x := Apply(s, c, a).cpus[c]; x.nesting > 0 ==> !ExecPc(x.pc)
  {
    if a.Advance? {
      var pc := s.cpus[c].pc;
      hide StartAccess, EndAccess, ExecAccess, LeaveAccess;
      if StartPc(pc) { StartNotExec(s, c); }
      else if EndPc(pc) { EndNotExec(s, c); }
      else if ExecPc(pc) { ExecSameDepth(s, c); }
      else { LeaveNotExec(s, c); }
      hide ExecPc;
    }
  }

  lemma StartNotExec(s: State, c: Cpu)
    requires c in s.cpus && StartPc(s.cpus[c].pc)
    ensures c in StartAccess(s, c).cpus && !ExecPc(StartAccess(s, c).cpus[c].pc)
  {
  }

  lemma EndNotExec(s: State, c: Cpu)
    requires c in s.cpus && EndPc(s.cpus[c].pc)
    ensures c in EndAccess(s, c).cpus && !ExecPc(EndAccess(s, c).cpus[c].pc)
  {
  }

  lemma ExecSameDepth(s: State, c: Cpu)
    requires c in s.cpus && ExecPc(s.cpus[c].pc)
    ensures c in ExecAccess(s, c).cpus && ExecAccess(s, c).cpus[c].nesting == s.cpus[c].nesting
  {
  }

  lemma LeaveNotExec(s: State, c: Cpu)
    requires c in s.cpus && LeavePc(s.cpus[c].pc)
    ensures c in LeaveAccess(s, c).cpus && !ExecPc(LeaveAccess(s, c).cpus[c].pc)
    ensures LeaveAccess(s, c).cpus[c].nesting == s.cpus[c].nesting
  {
  }

  // ----------------------------------------------------- what to do next

  /** With the lock held, its holder goes on. */
  lemma HolderNext(s: State, owner: Option<Cpu>, counted: set<Cpu>) returns (c: Cpu, a: Action)
    requires InvFor(s, owner, counted) && s.mutex.Some?
    ensures Enabled(s, c, a) && Ending(a) && !(a.Advance? && Waits(s.cpus[c].pc))
  {
    c := s.mutex.value;
    assert Ground(s, owner, counted, c);
    HolderCanMove(s, owner, counted, c);
    a :| Enabled(s, c, a) && (a.Advance? || a.Examine? || a.SignalTo? || a.ExecEnd? || a.EndExclusive?);
  }

  /** With the lock free and nobody in or near a section, every thread that has not returned can go on. */
  lemma FreeNext(s: State, owner: Option<Cpu>, counted: set<Cpu>, c: Cpu) returns (a: Action)
    requires Global(s, owner, counted) && Ground(s, owner, counted, c) && s.mutex.None? && s.pending == 0
    requires !s.cpus[c].pc.Outside? || s.cpus[c].nesting > 0
    ensures Enabled(s, c, a) && Ending(a) && (a.Advance? && Waits(s.cpus[c].pc) ==> WaitOver(s, c))
  {
    a := if s.cpus[c].pc.Executing? then ExecEnd else Advance;
  }

  /** With the lock free and a section claimed, its owner can go on, or one of the CPUs it waits for. */
  lemma OwnerNext(s: State, owner: Option<Cpu>, counted: set<Cpu>) returns (c: Cpu, a: Action)
    requires InvFor(s, owner, counted) && NoSelfWait(s) && s.mutex.None? && s.pending != 0
    ensures Enabled(s, c, a) && Ending(a) && (a.Advance? && Waits(s.cpus[c].pc) ==> WaitOver(s, c))
  {
    c := owner.value;
    assert Ground(s, owner, counted, c);
    if s.cpus[c].pc.StartWait? && s.pending > 1 {
      assert |counted| > 0;
      c :| c in counted;
      assert Ground(s, owner, counted, c);
      a := if s.cpus[c].pc.Executing? then ExecEnd else Advance;
    } else {
      a := if s.cpus[c].pc.Outside? then EndExclusive else Advance;
    }
  }

  /** One or two accesses of one thread, after which the threads are nearer to the end. */
  lemma NextSteps(s: State, owner: Option<Cpu>, counted: set<Cpu>) returns (c: Cpu, a: Action)
    requires InvFor(s, owner, counted) && NoSelfWait(s) && !Quiescent(s)
    ensures c in s.cpus && Enabled(s, c, a) && Ending(a) && (a.Advance? && Waits(s.cpus[c].pc) ==> WaitOver(s, c))
  {
    if s.mutex.Some? {
      c, a := HolderNext(s, owner, counted);
    } else if s.pending == 0 {
      c :| c in s.cpus && (!s.cpus[c].pc.Outside? || s.cpus[c].nesting > 0);
      assert Ground(s, owner, counted, c);
      hide Ground;
      a := FreeNext(s, owner, counted, c);
    } else {
      c, a := OwnerNext(s, owner, counted);
    }
  }

  lemma StepOn(s: State, owner: Option<Cpu>, counted: set<Cpu>, c: Cpu, a: Action)
    requires InvFor(s, owner, counted) && NoSelfWait(s) && Enabled(s, c, a) && Ending(a)
    ensures Inv(Apply(s, c, a)) && NoSelfWait(Apply(s, c, a))
    ensures !(a.Advance? && Waits(s.cpus[c].pc)) ==> Sum(Costs(Apply(s, c, a))) < Sum(Costs(s))
  {
    StepKeeps(s, owner, counted, c, a);
    KeepsNoSelfWait(s, c, a);
    if !(a.Advance? && Waits(s.cpus[c].pc)) {
      assert Ground(s, owner, counted, c);
      StepNearer(s, owner, counted, c, a);
      StepAsFar(s, c, a);
      hide Apply, Enabled, Costs, Sum, InvFor, Ground;
      CostsFall(s, Apply(s, c, a), c);
    }
  }

  lemma WaitOn(s: State, owner: Option<Cpu>, counted: set<Cpu>, c: Cpu)
    requires InvFor(s, owner, counted) && NoSelfWait(s) && WaitOver(s, c)
    ensures Enabled(s, c, Advance) && Enabled(Apply(s, c, Advance), c, Advance)
    ensures var s2 := Apply(Apply(s, c, Advance), c, Advance); Inv(s2) && NoSelfWait(s2) && Sum(Costs(s2)) < Sum(Costs(s))
  {
    WaitNearer(s, c);
    hide Apply, Enabled, Costs, Sum, InvFor, WaitOver, NoSelfWait;
    StepOn(s, owner, counted, c, Advance);
    var owner', counted' :| InvFor(Apply(s, c, Advance), owner', counted');
    StepOn(Apply(s, c, Advance), owner', counted', c, Advance);
    CostsFall(s, Apply(Apply(s, c, Advance), c, Advance), c);
  }

  /** No deadlock: all threads can return, by accesses of their own and the calls that end what they are in. */
  lemma {:induction false} CanReturn(s: State) returns (states: seq<State>, events: seq<Event>)
    requires Inv(s) && NoSelfWait(s)
    ensures IsPath(states, events) && states[0] == s && Quiescent(states[|events|])
    ensures forall e | e in events :: Ending(e.action)
    decreases Sum(Costs(s))
  {
    hide Enabled, Apply, InvFor, NoSelfWait, Costs, Sum, Waits, WaitOver;
    if Quiescent(s) {
      return [s], [];
    }
    hide Quiescent;
    var owner, counted :| InvFor(s, owner, counted);
    var c, a := NextSteps(s, owner, counted);
    var s1 := Apply(s, c, a);
    if a.Advance? && Waits(s.cpus[c].pc) {
      WaitOn(s, owner, counted, c);
      states, events := CanReturn(Apply(s1, c, Advance));
      Prepend(s1, c, Advance, states, events);
      states, events := [s1] + states, [Event(c, Advance)] + events;
    } else {
      StepOn(s, owner, counted, c, a);
      states, events := CanReturn(s1);
    }
    Prepend(s, c, a, states, events);
    states, events := [s] + states, [Event(c, a)] + events;
  }

  // ------------------------------------------------ the exact condition

  /** cpu_exec_start inside the caller's own section never returns. */
  lemma {:induction false} SelfWaitLasts(states: seq<State>, events: seq<Event>, i: nat, c: Cpu)
    requires IsPath(states, events) && i <= |events| && Inv(states[0])
    requires c in states[0].cpus && states[0].cpus[c].nesting > 0 && ExecPc(states[0].cpus[c].pc)
    ensures Inv(states[i]) && c in states[i].cpus && states[i].cpus[c].nesting > 0 && ExecPc(states[i].cpus[c].pc)
  {
    if i > 0 {
      SelfWaitLasts(states, events, i - 1, c);
      var s, e := states[i - 1], events[i - 1];
      assert Enabled(s, e.cpu, e.action) && states[i] == Apply(s, e.cpu, e.action);
      hide IsPath;
      SelfWaitStep(s, e, c);
    }
  }

  lemma SelfWaitStep(s: State, e: Event, c: Cpu)
    requires Inv(s) && Enabled(s, e.cpu, e.action) && c in s.cpus && s.cpus[c].nesting > 0 && ExecPc(s.cpus[c].pc)
    ensures var s' := Apply(s, e.cpu, e.action); Inv(s') && c in s'.cpus && s'.cpus[c].nesting > 0 && ExecPc(s'.cpus[c].pc)
  {
    hide Apply;
    var owner, counted :| InvFor(s, owner, counted);
    StepKeeps(s, owner, counted, e.cpu, e.action);
    assert Ground(s, owner, counted, c);
    if e.cpu == c {
      AccessCalls(s, c, e.action);
    } else {
      OthersCalls(s, e.cpu, e.action, c);
    }
    assert Ground(Apply(s, e.cpu, e.action), OwnerAfter(s, owner, e.cpu, e.action), CountedAfter(s, counted, e.cpu, e.action), c);
    hide InvFor;
  }

  /** The threads can all return exactly if none of them is in cpu_exec_start inside its own exclusive section. */
  lemma ReturnIff(s: State)
    requires Reachable(s)
    ensures NoSelfWait(s) <==> exists states, events :: IsPath(states, events) && states[0] == s && Quiescent(states[|events|])
  {
    var owner, counted := ReachableInv(s);
    if NoSelfWait(s) {
      var states, events := CanReturn(s);
    }
    if states, events :| IsPath(states, events) && states[0] == s && Quiescent(states[|events|]) {
      forall d | d in s.cpus && s.cpus[d].nesting > 0 ensures !ExecPc(s.cpus[d].pc) {
        if ExecPc(s.cpus[d].pc) {
          SelfWaitLasts(states, events, |events|, d);
          assert false;
        }
      }
    }
  }

  // --------------------------------------------------------- being served

  /** Only `c` is doing anything: it is on the straight way into a section. */
  predicate Solo(s: State, c: Cpu) {
    && c in s.cpus && StartPc(s.cpus[c].pc) && !Waits(s.cpus[c].pc)
    && forall d | d in s.cpus && d != c :: s.cpus[d].pc.Outside? && s.cpus[d].nesting == 0
  }

  lemma SoloAlone(s: State, owner: Option<Cpu>, counted: set<Cpu>, c: Cpu)
    requires InvFor(s, owner, counted) && Solo(s, c)
    ensures counted == {} && (owner.Some? ==> owner.value == c) && (s.mutex.Some? ==> s.mutex.value == c)
    ensures owner.None? <==> s.pending == 0
    ensures s.cpus[c].pc.StartScan? ==> s.cpus[c].pc.todo <= s.cpus.Keys
  {
    forall d ensures d !in counted && (owner == Some(d) || s.mutex == Some(d) ==> d == c) {
      if d in s.cpus {
        assert Ground(s, owner, counted, d);
      }
    }
    assert Ground(s, owner, counted, c);
  }

  lemma SoloStep(s: State, owner: Option<Cpu>, counted: set<Cpu>, c: Cpu) returns (a: Action)
    requires InvFor(s, owner, counted) && Solo(s, c)
    ensures Enabled(s, c, a) && Ending(a)
    ensures s.cpus[c].pc.StartEnter? ==> Apply(s, c, a).cpus[c].pc.Outside? && Apply(s, c, a).cpus[c].nesting == 1
    ensures !s.cpus[c].pc.StartEnter? ==> Solo(Apply(s, c, a), c)
  {
    SoloAlone(s, owner, counted, c);
    assert Ground(s, owner, counted, c);
    hide InvFor, Global;
    var pc := s.cpus[c].pc;
    if pc.StartScan? && pc.todo != {} {
      var d :| d in pc.todo;
      a := Examine(d);
      SoloExamine(s, c, d);
      hide Apply;
    } else {
      a := Advance;
    }
  }

  lemma SoloExamine(s: State, c: Cpu, d: Cpu)
    requires Solo(s, c) && Enabled(s, c, Examine(d))
    ensures Solo(Apply(s, c, Examine(d)), c)
  {
  }

  /** From a state in which all threads have returned, every one of them can have an exclusive section. */
  lemma {:induction false} SoloEnters(s: State, c: Cpu) returns (states: seq<State>, events: seq<Event>)
    requires Inv(s) && Solo(s, c) && NoSelfWait(s)
    ensures IsPath(states, events) && states[0] == s
    ensures var s' := states[|events|]; c in s'.cpus && s'.cpus[c].pc.Outside? && s'.cpus[c].nesting == 1
    decreases Sum(Costs(s))
  {
    assert c in s.cpus && !Waits(s.cpus[c].pc);
    hide Enabled, Apply, Solo, NoSelfWait, InvFor, Costs, Sum, Waits, Ending;
    var owner, counted :| InvFor(s, owner, counted);
    var a := SoloStep(s, owner, counted, c);
    StepOn(s, owner, counted, c, a);
    var s1 := Apply(s, c, a);
    if s.cpus[c].pc.StartEnter? {
      states, events := [s1], [];
    } else {
      states, events := SoloEnters(s1, c);
    }
    Prepend(s, c, a, states, events);
    states, events := [s] + states, [Event(c, a)] + events;
  }

  /** No starvation is built in: whatever the threads are doing, any one of them can still get an exclusive section, as long
      as none waits for itself. */
  lemma EveryoneCanEnter(s: State, c: Cpu) returns (states: seq<State>, events: seq<Event>)
    requires Reachable(s) && NoSelfWait(s) && c in s.cpus
    ensures IsPath(states, events) && states[0] == s
    ensures var s' := states[|events|]; c in s'.cpus && s'.cpus[c].pc.Outside? && s'.cpus[c].nesting == 1
  {
    var owner, counted := ReachableInv(s);
    states, events := CanReturn(s);
    var q := states[|events|];
    PathKeeps(states, events, |events|, c);
    var q1 := Apply(q, c, StartExclusive);
    QuietStart(q, c);
    var states', events' := SoloEnters(q1, c);
    Prepend(q, c, StartExclusive, states', events');
    states', events' := [q] + states', [Event(c, StartExclusive)] + events';
    Joined(states, events, states', events');
    states, events := states + states'[1..], events + events';
  }

  lemma {:induction false} PathKeeps(states: seq<State>, events: seq<Event>, i: nat, c: Cpu)
    requires IsPath(states, events) && i <= |events| && Inv(states[0]) && c in states[0].cpus
    requires forall e | e in events :: Ending(e.action)
    ensures Inv(states[i]) && c in states[i].cpus
  {
    hide Apply, Enabled, Inv, Ending;
    if i > 0 {
      PathKeeps(states, events, i - 1, c);
      assert events[i - 1] in events;
      StaysThere(states[i - 1], events[i - 1], c);
    }
  }

  lemma StaysThere(s: State, e: Event, c: Cpu)
    requires Inv(s) && c in s.cpus && Enabled(s, e.cpu, e.action) && Ending(e.action)
    ensures Inv(Apply(s, e.cpu, e.action)) && c in Apply(s, e.cpu, e.action).cpus
  {
    hide Apply, Enabled, InvFor, Ending;
    var owner, counted :| InvFor(s, owner, counted);
    StepKeeps(s, owner, counted, e.cpu, e.action);
    StepAsFar(s, e.cpu, e.action);
  }

  lemma QuietStart(q: State, c: Cpu)
    requires Inv(q) && Quiescent(q) && c in q.cpus
    ensures Enabled(q, c, StartExclusive)
    ensures var q1 := Apply(q, c, StartExclusive); Inv(q1) && Solo(q1, c) && NoSelfWait(q1)
  {
    var owner, counted :| InvFor(q, owner, counted);
    StepKeeps(q, owner, counted, c, StartExclusive);
  }

  // ---------------------------------------------------------- fast paths

  /** With no section pending, a CPU enters guest code with one store and one load, and leaves it in the same way; the lock is
      not touched. */
  lemma FastPath(s: State, c: Cpu)
    requires c in s.cpus && s.cpus[c].pc.Outside? && s.pending == 0
    ensures Enabled(s, c, ExecStart)
    ensures var s1 := Apply(s, c, ExecStart);
            Enabled(s1, c, Advance) &&
            var s2 := Apply(s1, c, Advance);
            Enabled(s2, c, Advance) && Apply(s2, c, Advance) == s.(cpus := s.cpus[c := s.cpus[c].(pc := Executing, running := true)])
  {
  }

  lemma FastExit(s: State, c: Cpu)
    requires c in s.cpus && s.cpus[c].pc.Executing? && s.pending == 0
    ensures Enabled(s, c, ExecEnd)
    ensures var s1 := Apply(s, c, ExecEnd);
            Enabled(s1, c, Advance) &&
            var s2 := Apply(s1, c, Advance);
            Enabled(s2, c, Advance) && Apply(s2, c, Advance) == s.(cpus := s.cpus[c := s.cpus[c].(pc := Outside, running := false)])
  {
  }

  /** Any set of CPUs can be plugged. */
  lemma {:induction false} AnyCpus(cpus: set<Cpu>) returns (s: State)
    ensures Reachable(s) && s.cpus.Keys == cpus && Quiescent(s) && s.mutex.None? && s.pending == 0
    decreases |cpus|
  {
    if cpus == {} {
      var events: seq<Event> := [];
      assert IsRun([INITIAL], events) && INITIAL == [INITIAL][|[INITIAL]| - 1];
      s := INITIAL;
    } else {
      var c :| c in cpus;
      var s0 := AnyCpus(cpus - {c});
      s := Apply(s0, c, Plug);
      ReachableStep(s0, c, Plug);
    }
  }

  lemma ReachableStep(s: State, c: Cpu, a: Action)
    requires Reachable(s) && Enabled(s, c, a)
    ensures Reachable(Apply(s, c, a))
  {
    hide Enabled, Apply;
    var states, events :| IsRun(states, events) && s == states[|states| - 1];
    var states', events' := states + [Apply(s, c, a)], events + [Event(c, a)];
    assert IsRun(states', events') && Apply(s, c, a) == states'[|states'| - 1];
  }
}
