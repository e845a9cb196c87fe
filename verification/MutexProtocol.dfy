/** lock, try_lock and guard drop as interleaved steps of any number of CPUs on any number of mutexes:
    one step per access to the lock word or to the interrupt flag. Guards may be dropped in any order. */
module MutexProtocol {

  /** A live guard and whether it will switch interrupts back on. */
  datatype Guard = Guard(mutex: nat, restore: bool)

  datatype Pc =
    | Ready
    | Saved(mutex: nat, restore: bool, spin: bool)    // interrupt flag read
    | Masked(mutex: nat, restore: bool, spin: bool)   // interrupts off, exchange pending
    | Won(mutex: nat, restore: bool)                  // exchange succeeded, guard not yet built
    | Lost(restore: bool)                             // try_lock failed, flag not yet restored
    | Dropping(restore: bool)                         // lock word cleared, flag not yet restored

  datatype CpuState = CpuState(interrupts: bool, guards: seq<Guard>, pc: Pc)

  datatype System = System(locked: set<nat>, cpus: seq<CpuState>)

  /** `spin` distinguishes lock from try_lock. */
  datatype Action =
    | ReadFlag(mutex: nat, spin: bool)
    | DisableInterrupts
    | CompareExchange
    | BuildGuard
    | FinishTry
    | ClearLock(k: nat)
    | FinishDrop

  function Remove(s: seq<Guard>, k: nat): seq<Guard>
    requires k < |s|
  {
    s[..k] + s[k + 1..]
  }

  predicate Enabled(c: CpuState, a: Action) {
    match a
    case ReadFlag(_, _) => c.pc.Ready?
    case DisableInterrupts => c.pc.Saved?
    case CompareExchange => c.pc.Masked?
    case BuildGuard => c.pc.Won?
    case FinishTry => c.pc.Lost?
    case ClearLock(k) => c.pc.Ready? && k < |c.guards|
    case FinishDrop => c.pc.Dropping?
  }

  /** The acting CPU after the step; `locked` is the set of mutexes whose word is true. */
  function CpuStep(locked: set<nat>, c: CpuState, a: Action): CpuState
    requires Enabled(c, a)
  {
    match a
    case ReadFlag(m, spin) => c.(pc := Saved(m, c.interrupts, spin))
    case DisableInterrupts => c.(interrupts := false, pc := Masked(c.pc.mutex, c.pc.restore, c.pc.spin))
    case CompareExchange =>
      if c.pc.mutex !in locked then c.(pc := Won(c.pc.mutex, c.pc.restore))
      else if c.pc.spin then c
      else c.(pc := Lost(c.pc.restore))
    case BuildGuard => c.(guards := c.guards + [Guard(c.pc.mutex, c.pc.restore)], pc := Ready)
    case FinishTry => c.(interrupts := c.interrupts || c.pc.restore, pc := Ready)
    case ClearLock(k) => c.(guards := Remove(c.guards, k), pc := Dropping(c.guards[k].restore))
    case FinishDrop => c.(interrupts := c.interrupts || c.pc.restore, pc := Ready)
  }

  function LockStep(locked: set<nat>, c: CpuState, a: Action): set<nat>
    requires Enabled(c, a)
  {
    match a
    case CompareExchange => locked + {c.pc.mutex}
    case ClearLock(k) => locked - {c.guards[k].mutex}
    case _ => locked
  }

  function Step(s: System, i: nat, a: Action): System
    requires i < |s.cpus| && Enabled(s.cpus[i], a)
  {
    System(LockStep(s.locked, s.cpus[i], a), s.cpus[i := CpuStep(s.locked, s.cpus[i], a)])
  }

  predicate Initial(s: System) {
    s.locked == {} && forall i :: 0 <= i < |s.cpus| ==> s.cpus[i].guards == [] && s.cpus[i].pc == Ready
  }

  datatype Event = Event(cpu: nat, action: Action)

  predicate Possible(s: System, es: seq<Event>)
    decreases |es|
  {
    es == [] || (es[0].cpu < |s.cpus| && Enabled(s.cpus[es[0].cpu], es[0].action)
                 && Possible(Step(s, es[0].cpu, es[0].action), es[1..]))
  }

  function Run(s: System, es: seq<Event>): (t: System)
    requires Possible(s, es)
    ensures |t.cpus| == |s.cpus|
    decreases |es|
  {
    if es == [] then s else Run(Step(s, es[0].cpu, es[0].action), es[1..])
  }

  // ----- counting holders

  function Held(gs: seq<Guard>, m: nat): nat {
    if gs == [] then 0 else (if gs[0].mutex == m then 1 else 0) + Held(gs[1..], m)
  }

  /** Guards of this CPU for mutex m, one under construction included. */
  function HeldBy(c: CpuState, m: nat): nat {
    Held(c.guards, m) + (if c.pc.Won? && c.pc.mutex == m then 1 else 0)
  }

  function Holders(cs: seq<CpuState>, m: nat): nat {
    if cs == [] then 0 else HeldBy(cs[0], m) + Holders(cs[1..], m)
  }

  lemma {:induction false} HeldConcat(gs: seq<Guard>, hs: seq<Guard>, m: nat)
    ensures Held(gs + hs, m) == Held(gs, m) + Held(hs, m)
  {
    if gs == [] {
      assert gs + hs == hs;
    } else {
      assert (gs + hs)[1..] == gs[1..] + hs;
      HeldConcat(gs[1..], hs, m);
    }
  }

  lemma {:induction false} HeldRemove(gs: seq<Guard>, k: nat, m: nat)
    requires k < |gs|
    ensures Held(Remove(gs, k), m) == Held(gs, m) - (if gs[k].mutex == m then 1 else 0)
  {
    if k == 0 {
      assert Remove(gs, 0) == gs[1..];
    } else {
      HeldRemove(gs[1..], k - 1, m);
      assert Remove(gs, k)[1..] == Remove(gs[1..], k - 1);
      assert Remove(gs, k)[0] == gs[0];
    }
  }

  lemma {:induction false} HoldersUpdate(cs: seq<CpuState>, i: nat, c: CpuState, m: nat)
    requires i < |cs|
    ensures Holders(cs[i := c], m) == Holders(cs, m) - HeldBy(cs[i], m) + HeldBy(c, m)
    ensures HeldBy(cs[i], m) <= Holders(cs, m)
  {
    if i > 0 {
      assert cs[i := c][1..] == cs[1..][i - 1 := c];
      HoldersUpdate(cs[1..], i - 1, c, m);
    }
  }

  lemma {:induction false} HoldersNone(cs: seq<CpuState>, m: nat)
    requires forall i :: 0 <= i < |cs| ==> cs[i].guards == [] && cs[i].pc == Ready
    ensures Holders(cs, m) == 0
  {
    if cs != [] { HoldersNone(cs[1..], m); }
  }

  /** The lock word is true exactly when one guard exists or is being built, over all CPUs. */
  ghost predicate Exclusive(s: System) {
    forall m: nat :: Holders(s.cpus, m) == if m in s.locked then 1 else 0
  }

  lemma StepExclusive(s: System, i: nat, a: Action)
    requires Exclusive(s) && i < |s.cpus| && Enabled(s.cpus[i], a)
    ensures Exclusive(Step(s, i, a))
  {
    var c := s.cpus[i];
    var d := CpuStep(s.locked, c, a);
    forall m: nat ensures Holders(Step(s, i, a).cpus, m) == if m in Step(s, i, a).locked then 1 else 0 {
      HoldersUpdate(s.cpus, i, d, m);
      assert Holders(s.cpus, m) == if m in s.locked then 1 else 0;
      match a
      case BuildGuard => HeldConcat(c.guards, [Guard(c.pc.mutex, c.pc.restore)], m);
      case ClearLock(k) =>
        HeldRemove(c.guards, k, m);
        if m == c.guards[k].mutex { assert Held(c.guards, m) >= 1; }
      case _ =>
    }
  }

  // ----- the interrupt flag

  function Bit(b: bool): nat { if b then 1 else 0 }

  /** Guards that will switch interrupts back on. */
  function Restoring(gs: seq<Guard>): nat {
    if gs == [] then 0 else Bit(gs[0].restore) + Restoring(gs[1..])
  }

  function InHand(pc: Pc): nat {
    match pc
    case Ready => 0
    case Saved(_, _, _) => 0
    case Masked(_, r, _) => Bit(r)
    case Won(_, r) => Bit(r)
    case Lost(r) => Bit(r)
    case Dropping(r) => Bit(r)
  }

  /** The enable bit is in the flag, in one guard, or in the hands of the running operation. */
  function EnableBits(c: CpuState): nat {
    Bit(c.interrupts) + Restoring(c.guards) + InHand(c.pc)
  }

  ghost predicate FlagOk(c: CpuState, enabledAtStart: bool) {
    && EnableBits(c) == Bit(enabledAtStart)
    && (c.pc.Saved? ==> c.pc.restore == c.interrupts)
  }

  lemma {:induction false} RestoringConcat(gs: seq<Guard>, hs: seq<Guard>)
    ensures Restoring(gs + hs) == Restoring(gs) + Restoring(hs)
  {
    if gs == [] {
      assert gs + hs == hs;
    } else {
      assert (gs + hs)[1..] == gs[1..] + hs;
      RestoringConcat(gs[1..], hs);
    }
  }

  lemma {:induction false} RestoringRemove(gs: seq<Guard>, k: nat)
    requires k < |gs|
    ensures Restoring(Remove(gs, k)) + Bit(gs[k].restore) == Restoring(gs)
  {
    if k == 0 {
      assert Remove(gs, 0) == gs[1..];
    } else {
      RestoringRemove(gs[1..], k - 1);
      assert Remove(gs, k)[1..] == Remove(gs[1..], k - 1);
      assert Remove(gs, k)[0] == gs[0];
    }
  }

  /** Every step, whatever guard is dropped, conserves the enable bit. */
  lemma StepConservesFlag(locked: set<nat>, c: CpuState, a: Action, enabledAtStart: bool)
    requires FlagOk(c, enabledAtStart) && Enabled(c, a)
    ensures FlagOk(CpuStep(locked, c, a), enabledAtStart)
  {
    match a
    case BuildGuard => RestoringConcat(c.guards, [Guard(c.pc.mutex, c.pc.restore)]);
    case ClearLock(k) => RestoringRemove(c.guards, k);
    case _ =>
  }

  // ----- whole runs

  ghost predicate SystemOk(s: System, flags: seq<bool>) {
    && Exclusive(s) && |s.cpus| == |flags|
    && forall i :: 0 <= i < |flags| ==> FlagOk(s.cpus[i], flags[i])
  }

  ghost function Flags(s: System): seq<bool> {
    seq(|s.cpus|, i requires 0 <= i < |s.cpus| => s.cpus[i].interrupts)
  }

  lemma InitialOk(s: System)
    requires Initial(s)
    ensures SystemOk(s, Flags(s))
  {
    forall m: nat ensures Holders(s.cpus, m) == 0 { HoldersNone(s.cpus, m); }
  }

  lemma {:induction false} RunOk(s: System, es: seq<Event>, flags: seq<bool>)
    requires SystemOk(s, flags) && Possible(s, es)
    ensures SystemOk(Run(s, es), flags)
    decreases |es|
  {
    if es != [] {
      var i, a := es[0].cpu, es[0].action;
      StepExclusive(s, i, a);
      StepConservesFlag(s.locked, s.cpus[i], a, flags[i]);
      RunOk(Step(s, i, a), es[1..], flags);
    }
  }

  lemma {:induction false} HeldAtLeast(gs: seq<Guard>, k: nat)
    requires k < |gs|
    ensures Held(gs, gs[k].mutex) >= 1
    ensures gs[k].restore ==> Restoring(gs) >= 1
  {
    if k > 0 { HeldAtLeast(gs[1..], k - 1); }
  }

  lemma {:induction false} HeldTwice(gs: seq<Guard>, j: nat, k: nat)
    requires j < k < |gs|
    ensures gs[j].mutex == gs[k].mutex ==> Held(gs, gs[k].mutex) >= 2
    ensures gs[j].restore && gs[k].restore ==> Restoring(gs) >= 2
  {
    if j > 0 { HeldTwice(gs[1..], j - 1, k - 1); } else { HeldAtLeast(gs[1..], k - 1); }
  }

  lemma {:induction false} HoldersTwice(cs: seq<CpuState>, i: nat, j: nat, m: nat)
    requires i < j < |cs|
    ensures HeldBy(cs[i], m) + HeldBy(cs[j], m) <= Holders(cs, m)
  {
    if i > 0 {
      HoldersTwice(cs[1..], i - 1, j - 1, m);
    } else {
      HoldersUpdate(cs[1..], j - 1, cs[j], m);
    }
  }

  /** Mutual exclusion for every run: a guard's mutex is locked, and two guards for one mutex never
      coexist, on one CPU or on two. */
  lemma MutualExclusion(s: System, es: seq<Event>, i: nat, x: nat, j: nat, y: nat)
    requires Initial(s) && Possible(s, es)
    requires var t := Run(s, es);
             i < |t.cpus| && j < |t.cpus| && x < |t.cpus[i].guards| && y < |t.cpus[j].guards|
    ensures var t := Run(s, es);
            t.cpus[i].guards[x].mutex in t.locked
            && (t.cpus[i].guards[x].mutex == t.cpus[j].guards[y].mutex ==> i == j && x == y)
  {
    InitialOk(s);
    RunOk(s, es, Flags(s));
    var t := Run(s, es);
    var m := t.cpus[i].guards[x].mutex;
    HeldAtLeast(t.cpus[i].guards, x);
    HeldAtLeast(t.cpus[j].guards, y);
    HoldersUpdate(t.cpus, i, t.cpus[i], m);
    assert Holders(t.cpus, m) == if m in t.locked then 1 else 0;
    if i < j { HoldersTwice(t.cpus, i, j, m); }
    if j < i { HoldersTwice(t.cpus, j, i, m); }
    if i == j && x < y { HeldTwice(t.cpus[i].guards, x, y); }
    if i == j && y < x { HeldTwice(t.cpus[i].guards, y, x); }
  }

  /** The flag under any release order: at most one guard of a CPU carries the restore bit; between
      operations interrupts are off exactly when a guard carries it, if they were on at the start,
      and always off otherwise; with no guard left the flag is what it was. */
  lemma FlagAfterRun(s: System, es: seq<Event>, i: nat)
    requires Initial(s) && Possible(s, es) && i < |s.cpus|
    ensures var c := Run(s, es).cpus[i];
            (forall x, y :: 0 <= x < y < |c.guards| ==> !(c.guards[x].restore && c.guards[y].restore))
            && (c.pc.Ready? ==>
                  (c.interrupts <==> s.cpus[i].interrupts && forall x :: 0 <= x < |c.guards| ==> !c.guards[x].restore))
            && (c.pc.Ready? && c.guards == [] ==> c.interrupts == s.cpus[i].interrupts)
  {
    InitialOk(s);
    RunOk(s, es, Flags(s));
    var c := Run(s, es).cpus[i];
    assert FlagOk(c, Flags(s)[i]);
    forall x, y | 0 <= x < y < |c.guards| ensures !(c.guards[x].restore && c.guards[y].restore) {
      HeldTwice(c.guards, x, y);
    }
    SomeRestores(c.guards);
  }

  lemma {:induction false} SomeRestores(gs: seq<Guard>)
    ensures Restoring(gs) > 0 <==> exists k :: 0 <= k < |gs| && gs[k].restore
  {
    if gs != [] {
      SomeRestores(gs[1..]);
      assert forall k :: 0 < k < |gs| ==> gs[k] == gs[1..][k - 1];
      if !gs[0].restore && Restoring(gs[1..]) > 0 {
        var k :| 0 <= k < |gs[1..]| && gs[1..][k].restore;
        assert gs[k + 1].restore;
      }
    }
  }

  // ----- nested and out-of-order release

  /** Only the newest guard is ever dropped. */
  predicate Nested(c: CpuState, a: Action) {
    a.ClearLock? ==> a.k + 1 == |c.guards|
  }

  predicate NestedRun(s: System, es: seq<Event>)
    requires Possible(s, es)
    decreases |es|
  {
    es == [] || (Nested(s.cpus[es[0].cpu], es[0].action)
                 && NestedRun(Step(s, es[0].cpu, es[0].action), es[1..]))
  }

  /** The restore bit sits in the oldest guard, and interrupts stay off while it is held. */
  ghost predicate NestedOk(c: CpuState) {
    && (forall k :: 0 < k < |c.guards| ==> !c.guards[k].restore)
    && (c.guards != [] ==> !c.interrupts)
    && match c.pc
       case Ready => true
       case Saved(_, r, _) => r == c.interrupts
       case Masked(_, r, _) => !c.interrupts && (c.guards != [] ==> !r)
       case Won(_, r) => !c.interrupts && (c.guards != [] ==> !r)
       case Lost(r) => !c.interrupts && (c.guards != [] ==> !r)
       case Dropping(r) => !c.interrupts && (c.guards != [] ==> !r)
  }

  lemma StepNested(locked: set<nat>, c: CpuState, a: Action)
    requires NestedOk(c) && Enabled(c, a) && Nested(c, a)
    ensures NestedOk(CpuStep(locked, c, a))
  {
    if a.ClearLock? {
      assert Remove(c.guards, a.k) == c.guards[..a.k];
    }
  }

  /** With nested release, interrupts are off on every CPU that holds a guard, at every step. */
  lemma {:induction false} NestedKeepsInterruptsOff(s: System, es: seq<Event>, i: nat)
    requires (forall j :: 0 <= j < |s.cpus| ==> NestedOk(s.cpus[j]))
    requires Possible(s, es) && NestedRun(s, es) && i < |s.cpus|
    ensures Run(s, es).cpus[i].guards != [] ==> !Run(s, es).cpus[i].interrupts
    decreases |es|
  {
    if es != [] {
      StepNested(s.locked, s.cpus[es[0].cpu], es[0].action);
      NestedKeepsInterruptsOff(Step(s, es[0].cpu, es[0].action), es[1..], i);
    }
  }

  // ----- exactly which runs keep interrupts off

  /** The guard that carries the restore bit is dropped while another is held. */
  predicate DropsBit(c: CpuState, a: Action) {
    a.ClearLock? && a.k < |c.guards| && c.guards[a.k].restore && |c.guards| >= 2
  }

  predicate NeverDropsBit(s: System, es: seq<Event>, i: nat)
    requires Possible(s, es) && i < |s.cpus|
    decreases |es|
  {
    es == [] || (!(es[0].cpu == i && DropsBit(s.cpus[i], es[0].action))
                 && NeverDropsBit(Step(s, es[0].cpu, es[0].action), es[1..], i))
  }

  /** The promise: between operations, interrupts are off if a guard is held. */
  predicate HeldOff(c: CpuState) { c.pc.Ready? && c.guards != [] ==> !c.interrupts }

  predicate AlwaysOff(s: System, es: seq<Event>, i: nat)
    requires Possible(s, es) && i < |s.cpus|
    decreases |es|
  {
    HeldOff(s.cpus[i]) && (es == [] || AlwaysOff(Step(s, es[0].cpu, es[0].action), es[1..], i))
  }

  /** While any guard is held, one of them carries the bit. */
  ghost predicate Carried(c: CpuState) {
    && FlagOk(c, true) && (c.guards != [] ==> Restoring(c.guards) == 1)
    && (c.pc.Masked? || c.pc.Won? ==> !c.interrupts)
  }

  lemma StepCarried(locked: set<nat>, c: CpuState, a: Action)
    requires Carried(c) && Enabled(c, a) && !DropsBit(c, a)
    ensures Carried(CpuStep(locked, c, a))
  {
    StepConservesFlag(locked, c, a, true);
    match a
    case BuildGuard => RestoringConcat(c.guards, [Guard(c.pc.mutex, c.pc.restore)]);
    case ClearLock(k) => RestoringRemove(c.guards, k);
    case _ =>
  }

  /** Once the bit has been dropped under another guard, the CPU cannot become ready again without
      interrupts on and that guard still held. */
  lemma {:induction false} WindowOpens(s: System, es: seq<Event>, i: nat)
    requires Possible(s, es) && i < |s.cpus| && s.cpus[i].pc == Dropping(true) && s.cpus[i].guards != []
    requires Run(s, es).cpus[i].pc.Ready?
    ensures !AlwaysOff(s, es, i)
    decreases |es|
  {
    var t := Step(s, es[0].cpu, es[0].action);
    if es[0].cpu == i {
      assert !HeldOff(t.cpus[i]);
    } else {
      WindowOpens(t, es[1..], i);
    }
  }

  lemma {:induction false} OffIffCarried(s: System, es: seq<Event>, i: nat)
    requires Possible(s, es) && i < |s.cpus| && Carried(s.cpus[i])
    requires Run(s, es).cpus[i].pc.Ready?
    ensures AlwaysOff(s, es, i) <==> NeverDropsBit(s, es, i)
    decreases |es|
  {
    if es != [] {
      var t := Step(s, es[0].cpu, es[0].action);
      if es[0].cpu == i && DropsBit(s.cpus[i], es[0].action) {
        WindowOpens(t, es[1..], i);
      } else {
        if es[0].cpu == i { StepCarried(s.locked, s.cpus[i], es[0].action); }
        OffIffCarried(t, es[1..], i);
      }
    }
  }

  /** On a CPU that started with interrupts on and is between operations at the end: the promise held at
      every point of the run if and only if the guard with the restore bit was never dropped while
      another was held. */
  lemma OffIffBitDroppedLast(s: System, es: seq<Event>, i: nat)
    requires Initial(s) && Possible(s, es) && i < |s.cpus| && s.cpus[i].interrupts
    requires Run(s, es).cpus[i].pc.Ready?
    ensures AlwaysOff(s, es, i) <==> NeverDropsBit(s, es, i)
  {
    OffIffCarried(s, es, i);
  }

  /** The steps of an uncontended lock call of CPU 0. */
  function LockEvents(m: nat): seq<Event> {
    [Event(0, ReadFlag(m, true)), Event(0, DisableInterrupts), Event(0, CompareExchange), Event(0, BuildGuard)]
  }

  function DropEvents(i: nat, k: nat): seq<Event> {
    [Event(i, ClearLock(k)), Event(i, FinishDrop)]
  }

  /** Without nesting this fails in exactly one way: after any run, dropping one of several guards while
      interrupts are off switches them on, under the others, if and only if that guard carries the
      restore bit. */
  lemma DropWindow(s: System, es: seq<Event>, i: nat, k: nat)
    requires Initial(s) && Possible(s, es) && i < |s.cpus| && s.cpus[i].interrupts
    requires var c := Run(s, es).cpus[i];
             c.pc.Ready? && !c.interrupts && k < |c.guards| && |c.guards| >= 2
    ensures Possible(s, es + DropEvents(i, k))
    ensures var c := Run(s, es).cpus[i];
            var d := Run(s, es + DropEvents(i, k)).cpus[i];
            d.guards == Remove(c.guards, k) != [] && (d.interrupts <==> c.guards[k].restore)
  {
    var gs := Run(s, es).cpus[i].guards;
    DropRun(Run(s, es), i, k);
    RunConcat(s, es, DropEvents(i, k));
    FlagAfterRun(s, es, i);
    FlagAfterRun(s, es + DropEvents(i, k), i);
    RemoveKeeps(gs, k);
  }

  lemma RemoveKeeps(gs: seq<Guard>, k: nat)
    requires k < |gs| && forall x, y :: 0 <= x < y < |gs| ==> !(gs[x].restore && gs[y].restore)
    requires exists x :: 0 <= x < |gs| && gs[x].restore
    ensures gs[k].restore <==> forall x :: 0 <= x < |Remove(gs, k)| ==> !Remove(gs, k)[x].restore
  {
    var r := Remove(gs, k);
    var x :| 0 <= x < |gs| && gs[x].restore;
    if x != k { assert r[if x < k then x else x - 1].restore; }
    assert forall y :: 0 <= y < |r| ==> r[y] == gs[if y < k then y else y + 1];
  }

  /** The locking of alloc_4kb up to its early drop of the list guard: take the list, take the page
      array, drop the list. Interrupts are on again although the page array is still held. */
  lemma EarlyDropOpensWindow(list: nat, pageArray: nat)
    requires list != pageArray
    ensures var s := System({}, [CpuState(true, [], Ready)]);
            var es := LockEvents(list) + (LockEvents(pageArray) + DropEvents(0, 0));
            Possible(s, es)
            && Run(s, es) == System({pageArray}, [CpuState(true, [Guard(pageArray, false)], Ready)])
  {
    var s := System({}, [CpuState(true, [], Ready)]);
    LockRun(s, list);
    var t := Run(s, LockEvents(list));
    LockRun(t, pageArray);
    var u := Run(t, LockEvents(pageArray));
    assert u.cpus[0].guards == [Guard(list, true), Guard(pageArray, false)];
    DropRun(u, 0, 0);
    assert Remove(u.cpus[0].guards, 0) == [Guard(pageArray, false)];
    assert u.locked - {list} == {pageArray};
    RunConcat(t, LockEvents(pageArray), DropEvents(0, 0));
    RunConcat(s, LockEvents(list), LockEvents(pageArray) + DropEvents(0, 0));
  }

  lemma LockRun(s: System, m: nat)
    requires |s.cpus| == 1 && s.cpus[0].pc == Ready && m !in s.locked
    ensures Possible(s, LockEvents(m))
    ensures Run(s, LockEvents(m)) ==
            System(s.locked + {m}, [CpuState(false, s.cpus[0].guards + [Guard(m, s.cpus[0].interrupts)], Ready)])
  {
    var es := LockEvents(m);
    var s1 := Step(s, 0, es[0].action);
    var s2 := Step(s1, 0, es[1].action);
    var s3 := Step(s2, 0, es[2].action);
    OneEvent(s3, es[3..]);
    MoreEvents(s2, es[2..], es[3..]);
    MoreEvents(s1, es[1..], es[2..]);
  }

  /** CPU i is inside a call of lock for m that it began with the guards gs. */
  predicate Locking(c: CpuState, m: nat, restore: bool, gs: seq<Guard>) {
    c.guards == gs && (c.pc == Saved(m, restore, true) || c.pc == Masked(m, restore, true) || c.pc == Won(m, restore))
  }

  /** The call is over and has added its guard. */
  predicate HasLocked(c: CpuState, m: nat, restore: bool, gs: seq<Guard>) {
    c.pc == Ready && c.guards == gs + [Guard(m, restore)]
  }

  /** lock never gives up: however often the exchange fails and whatever other CPUs do, the call is still
      under way or has, at some point of the run, ended with the guard. */
  lemma {:induction false} LockEndsWithGuard(s: System, es: seq<Event>, i: nat, m: nat, restore: bool, gs: seq<Guard>)
    requires Possible(s, es) && i < |s.cpus| && Locking(s.cpus[i], m, restore, gs)
    ensures Locking(Run(s, es).cpus[i], m, restore, gs)
            || exists k: nat :: k <= |es| && Possible(s, es[..k]) && HasLocked(Run(s, es[..k]).cpus[i], m, restore, gs)
    decreases |es|
  {
    if es != [] {
      var t := Step(s, es[0].cpu, es[0].action);
      if HasLocked(t.cpus[i], m, restore, gs) {
        OneEvent(s, es[..1]);
        assert Possible(s, es[..1]) && HasLocked(Run(s, es[..1]).cpus[i], m, restore, gs);
      } else {
        LockEndsWithGuard(t, es[1..], i, m, restore, gs);
        if !Locking(Run(s, es).cpus[i], m, restore, gs) {
          var k: nat :| k <= |es| - 1 && Possible(t, es[1..][..k])
                        && HasLocked(Run(t, es[1..][..k]).cpus[i], m, restore, gs);
          MoreEvents(s, es[..k + 1], es[1..][..k]);
          assert HasLocked(Run(s, es[..k + 1]).cpus[i], m, restore, gs);
        }
      }
    }
  }

  /** The steps of a try_lock call of CPU 0 on a free mutex and on a held one. */
  function TryEvents(m: nat, free: bool): seq<Event> {
    [Event(0, ReadFlag(m, false)), Event(0, DisableInterrupts), Event(0, CompareExchange),
     Event(0, if free then BuildGuard else FinishTry)]
  }

  /** try_lock always ends: with one guard more on a free mutex; on a held one with the lock words, the
      guards and the interrupt flag as they were. */
  lemma TryRun(s: System, m: nat)
    requires |s.cpus| == 1 && s.cpus[0].pc == Ready
    ensures Possible(s, TryEvents(m, m !in s.locked))
    ensures Run(s, TryEvents(m, m !in s.locked)) ==
            if m in s.locked then s
            else System(s.locked + {m}, [CpuState(false, s.cpus[0].guards + [Guard(m, s.cpus[0].interrupts)], Ready)])
  {
    var es := TryEvents(m, m !in s.locked);
    var s1 := Step(s, 0, es[0].action);
    var s2 := Step(s1, 0, es[1].action);
    var s3 := Step(s2, 0, es[2].action);
    OneEvent(s3, es[3..]);
    MoreEvents(s2, es[2..], es[3..]);
    MoreEvents(s1, es[1..], es[2..]);
    MoreEvents(s, es, es[1..]);
    assert m in s.locked ==> s.locked + {m} == s.locked;
    assert m in s.locked ==> Step(s3, 0, es[3].action).cpus == s.cpus;
  }

  lemma OneEvent(s: System, es: seq<Event>)
    requires |es| == 1 && es[0].cpu < |s.cpus| && Enabled(s.cpus[es[0].cpu], es[0].action)
    ensures Possible(s, es) && Run(s, es) == Step(s, es[0].cpu, es[0].action)
  {
    assert es[1..] == [];
  }

  lemma MoreEvents(s: System, es: seq<Event>, rest: seq<Event>)
    requires es != [] && rest == es[1..]
    requires es[0].cpu < |s.cpus| && Enabled(s.cpus[es[0].cpu], es[0].action)
    requires Possible(Step(s, es[0].cpu, es[0].action), rest)
    ensures Possible(s, es) && Run(s, es) == Run(Step(s, es[0].cpu, es[0].action), rest)
  {}

  lemma DropRun(s: System, i: nat, k: nat)
    requires i < |s.cpus| && s.cpus[i].pc == Ready && k < |s.cpus[i].guards|
    ensures var c := s.cpus[i];
            Possible(s, DropEvents(i, k))
            && Run(s, DropEvents(i, k)) ==
               System(s.locked - {c.guards[k].mutex},
                      s.cpus[i := CpuState(c.interrupts || c.guards[k].restore, Remove(c.guards, k), Ready)])
  {
    var es := DropEvents(i, k);
    var s1 := Step(s, i, es[0].action);
    OneEvent(s1, es[1..]);
    MoreEvents(s, es, es[1..]);
  }

  lemma {:induction false} RunConcat(s: System, es: seq<Event>, fs: seq<Event>)
    requires Possible(s, es) && Possible(Run(s, es), fs)
    ensures Possible(s, es + fs) && Run(s, es + fs) == Run(Run(s, es), fs)
    decreases |es|
  {
    if es == [] {
      assert es + fs == fs;
    } else {
      assert (es + fs)[1..] == es[1..] + fs;
      RunConcat(Step(s, es[0].cpu, es[0].action), es[1..], fs);
    }
  }
}
