/**
  Every conversion ends (convert_co_do_copy and convert_do_copy in qemu/qemu-img.c):
  each step of the machine of ImgConvertRun lowers a measure, and when no step is left
  the result is decided.
 */
module ImgConvertEnds {
  import opened Wrappers
  import opened ImgConvert
  import opened ImgConvertRun

  // ------------------------------------------------------------ the measure

  /** How many steps a coroutine has at most before it is done with its chunk, or exits without taking one. */
  function Rank(co: Co): nat {
    match co
    case NotStarted => 3
    case Idle => 2
    case Querying => 1
    case Exited => 0
    case Writing(_, _, _, copying) => if copying then 8 else 3
    case Woken(_, _, _, copying) => if copying then 9 else 4
    case Waiting(_, _, _, copying) => if copying then 10 else 5
    case Reading(_, _, _, copying) => if copying then 11 else 6
  }

  ghost function Total(cos: map<nat, Co>): nat
    decreases cos.Keys
  {
    if cos == map[] then 0
    else
      var i :| i in cos;
      Rank(cos[i]) + Total(cos - {i})
  }

  lemma {:induction false} TotalAt(cos: map<nat, Co>, i: nat)
    requires i in cos
    ensures Total(cos) == Rank(cos[i]) + Total(cos - {i})
    decreases cos.Keys
  {
    var j :| j in cos && Total(cos) == Rank(cos[j]) + Total(cos - {j});
    if j != i {
      TotalAt(cos - {j}, i);
      TotalAt(cos - {i}, j);
      assert cos - {j} - {i} == cos - {i} - {j};
    }
  }

  lemma {:induction false} TotalLe(a: map<nat, Co>, b: map<nat, Co>)
    requires a.Keys == b.Keys && forall i | i in a :: Rank(b[i]) <= Rank(a[i])
    ensures Total(b) <= Total(a)
    decreases a.Keys
  {
    if i :| i in a {
      TotalAt(a, i);
      TotalAt(b, i);
      TotalLe(a - {i}, b - {i});
    } else {
      assert a == map[] && b == map[];
    }
  }

  /** One coroutine moves, and no other rises. */
  lemma TotalChange(a: map<nat, Co>, b: map<nat, Co>, i: nat)
    requires a.Keys == b.Keys && i in a && forall j | j in a && j != i :: Rank(b[j]) <= Rank(a[j])
    ensures Total(b) - Rank(b[i]) <= Total(a) - Rank(a[i])
  {
    TotalAt(a, i);
    TotalAt(b, i);
    TotalLe(a - {i}, b - {i});
  }

  lemma {:induction false} TotalStart(cos: map<nat, Co>)
    requires forall i | i in cos :: cos[i].NotStarted?
    ensures Total(cos) == 3 * |cos|
    decreases cos.Keys
  {
    if i :| i in cos {
      TotalAt(cos, i);
      TotalStart(cos - {i});
      assert cos.Keys == (cos - {i}).Keys + {i};
      assert |cos| == |cos - {i}| + 1;
    } else {
      assert cos == map[];
    }
  }

  /** Sectors not handed out, and what is left of the chunks in hand. */
  ghost function Measure(c: Config, s: State): int {
    10 * (|Source(c)| - s.sectorNum) + Total(s.cos)
  }

  // --------------------------------------------------- every step lowers it

  lemma PassOnRank(inOrder: bool, s: State, i: nat)
    requires i in s.cos && Active(s.cos[i])
    ensures Rank(PassOn(inOrder, s, i).cos[i]) == 2
  {
  }

  /** From the test before the write a coroutine does not go back to waiting if it is its turn. */
  lemma BeforeWriteRank(inOrder: bool, s: State, i: nat)
    requires i in s.cos && Active(s.cos[i])
    ensures var co := s.cos[i];
            Rank(BeforeWrite(inOrder, s, i).cos[i]) <=
              (if co.copying then 8 else 3) + if inOrder && s.wrOffs != co.lo && s.ret.InProgress? then 2 else 0
  {
    PassOnRank(inOrder, s, i);
    hide PassOn;
  }

  lemma BeginRank(c: Config, inOrder: bool, s: State, i: nat)
    requires i in s.cos && Active(s.cos[i])
    ensures Rank(Begin(c, inOrder, s, i).cos[i]) <= if s.copyRange then 10 else 6
  {
    var co := s.cos[i];
    BeforeWriteRank(inOrder, s.(cos := s.cos[i := Reading(co.lo, co.hi, WriteStatus(c, co.st), co.st.BlkData?)]), i);
    hide BeforeWrite;
  }

  lemma OthersFall(s: State, s': State, i: nat)
    requires OthersSame(s, s', i)
    ensures forall j | j in s.cos && j != i :: Rank(s'.cos[j]) <= Rank(s.cos[j])
  {
  }

  /** What the coroutine that moves comes to. */
  lemma OwnRank(c: Config, inOrder: bool, s: State, a: Action)
    requires Enabled(c, s, a) && (inOrder && a.Continue? && s.ret.InProgress? ==> s.wrOffs == s.cos[a.i].lo)
    ensures var s' := Apply(c, inOrder, s, a);
            && a.i in s'.cos
            && if a.Take? then Rank(s'.cos[a.i]) <= 10 else Rank(s'.cos[a.i]) < Rank(s.cos[a.i])
  {
    ApplyFrame(c, inOrder, s, a);
    hide Copied, Unspoiled, SameOutside, MayTake, More, Begin, BeforeWrite, PassOn;
    match a
    case Take(i, n, st) => BeginRank(c, inOrder, Taken(s, i, n, st), i);
    case ReadDone(i, ok) => BeforeWriteRank(inOrder, if ok then s else s.(ret := Failed), i);
    case Continue(i) => BeforeWriteRank(inOrder, s, i);
    case WriteDone(i, ok, after) => PassOnRank(inOrder, Wrote(s, i, ok, after), i);
    case CopyFails(i, after) => BeginRank(c, inOrder, s.(cells := after, copyRange := false), i);
    case _ =>
  }

  lemma TakesSome(c: Config, inOrder: bool, s: State, a: Action)
    requires Enabled(c, s, a)
    ensures var s' := Apply(c, inOrder, s, a); if a.Take? then s'.sectorNum > s.sectorNum else s'.sectorNum == s.sectorNum
  {
    ApplyFrame(c, inOrder, s, a);
    hide Copied, Unspoiled, SameOutside, Begin;
    if a.Take? {
      BeginFrame(c, inOrder, Taken(s, a.i, a.n, a.st), a.i);
    }
  }

  lemma StepLowers(c: Config, inOrder: bool, s: State, a: Action)
    requires (inOrder ==> OrderInv(s)) && Enabled(c, s, a)
    ensures Measure(c, Apply(c, inOrder, s, a)) < Measure(c, s)
  {
    assert inOrder ==> TurnOk(s, s.cos[a.i]);
    var s' := Apply(c, inOrder, s, a);
    ApplyFrame(c, inOrder, s, a);
    OwnRank(c, inOrder, s, a);
    TakesSome(c, inOrder, s, a);
    OthersFall(s, s', a.i);
    assert a.Take? ==> Rank(s.cos[a.i]) == 1;
    hide Apply, OrderInv, Rank, Source;
    TotalChange(s.cos, s'.cos, a.i);
  }

  lemma MeasureBound(c: Config, s: State)
    requires Inv(c, s)
    ensures Measure(c, s) >= 0
  {
  }

  lemma {:induction false} RunLowers(c: Config, inOrder: bool, run: seq<State>, actions: seq<Action>, k: nat)
    requires IsRun(c, inOrder, run, actions) && k <= |actions|
    ensures Measure(c, run[k]) + k <= Measure(c, run[0])
  {
    hide Apply, Enabled, OrderInv, Measure;
    if k > 0 {
      RunLowers(c, inOrder, run, actions, k - 1);
      if inOrder {
        RunInOrder(c, run, actions, k - 1);
      }
      StepLowers(c, inOrder, run[k - 1], actions[k - 1]);
    }
  }

  /** However the coroutines are scheduled and whatever fails, there are at most ten steps to a sector and three to a
      coroutine. */
  lemma ConvertEnds(c: Config, inOrder: bool, run: seq<State>, actions: seq<Action>)
    requires IsRun(c, inOrder, run, actions)
    ensures |actions| <= 10 * |Source(c)| + 3 * |run[0].cos|
  {
    RunLowers(c, inOrder, run, actions, |actions|);
    RunKeeps(c, inOrder, run, actions, |actions|);
    MeasureBound(c, run[|actions|]);
    TotalStart(run[0].cos);
  }

  // --------------------------------------------------- when no step is left

  /** Without an order of writes nobody waits. */
  lemma {:induction false} NobodyWaits(c: Config, run: seq<State>, actions: seq<Action>, k: nat)
    requires IsRun(c, false, run, actions) && k <= |actions|
    ensures forall i | i in run[k].cos :: !run[k].cos[i].Waiting?
  {
    if k > 0 {
      NobodyWaits(c, run, actions, k - 1);
      ApplyFrame(c, false, run[k - 1], actions[k - 1]);
      NoWaitOwn(c, run[k - 1], actions[k - 1]);
      hide Apply, Enabled;
    }
  }

  lemma NoWaitOwn(c: Config, s: State, a: Action)
    requires Enabled(c, s, a)
    ensures var s' := Apply(c, false, s, a); a.i in s'.cos && !s'.cos[a.i].Waiting?
  {
    hide Copied, Unspoiled, SameOutside, MayTake, More;
  }

  /** While a coroutine has not exited, some coroutine can move. */
  lemma NotAllStuck(c: Config, inOrder: bool, s: State, i: nat) returns (j: nat)
    requires Reachable(c, inOrder, s) && i in s.cos && !s.cos[i].Exited?
    ensures CanMove(s.cos, j)
  {
    j := i;
    if inOrder && Running(s.cos[i]) {
      j := SomebodyCanMove(c, s, i);
    } else if !inOrder {
      var run, actions :| IsRun(c, inOrder, run, actions) && run[|actions|] == s;
      NobodyWaits(c, run, actions, |actions|);
      if s.cos[i].Idle? && !LockFree(s.cos) {
        j :| j in s.cos && s.cos[j].Querying?;
      }
    }
  }

  lemma AllExited(c: Config, inOrder: bool, s: State)
    requires Reachable(c, inOrder, s) && forall j: nat :: !CanMove(s.cos, j)
    ensures forall i | i in s.cos :: s.cos[i].Exited?
  {
    forall i | i in s.cos ensures s.cos[i].Exited? {
      if !s.cos[i].Exited? {
        var j := NotAllStuck(c, inOrder, s, i);
        assert false;
      }
    }
  }

  /** A coroutine that can move has a step. */
  lemma MoveEnabled(c: Config, s: State, j: nat) returns (a: Action)
    requires CanMove(s.cos, j)
    ensures Enabled(c, s, a)
  {
    match s.cos[j]
    case NotStarted => a := Start(j);
    case Idle => a := if More(c, s) then Lock(j) else Leave(j);
    case Querying => a := StatusFails(j);
    case Reading(_, _, _, _) => a := ReadDone(j, true);
    case Woken(_, _, _, _) => a := Continue(j);
    case Writing(_, _, _, _) => a := WriteDone(j, false, s.cells);
  }

  /** A run that cannot go on has ended: every coroutine has exited, and the result is 0 or an error. */
  lemma StuckIsDecided(c: Config, inOrder: bool, s: State)
    requires Reachable(c, inOrder, s) && s.cos != map[] && forall a :: !Enabled(c, s, a)
    ensures (forall i | i in s.cos :: s.cos[i].Exited?) && (s.ret.Success? || s.ret.Failed?)
  {
    forall j: nat ensures !CanMove(s.cos, j) {
      if CanMove(s.cos, j) {
        var a := MoveEnabled(c, s, j);
        assert false;
      }
    }
    AllExited(c, inOrder, s);
    ConvertDecides(c, inOrder, s);
  }
}
