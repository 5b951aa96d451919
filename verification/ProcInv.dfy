/** What every step of the process system keeps. */
module ProcInv {
  import opened ProcModel

  // ---- Who holds which lock ----

  /** A thread at pc holds wait_lock. */
  predicate HoldsW(pc: Pc) {
    match pc
    case SleepStart(on) => on.OnProc?
    case SleepBoth(on) => on.OnProc?
    case Wake(_, _, _, after) => !after.AfterRel?
    case ExitReparent(_) => true
    case ExitLock => true
    case ExitMark => true
    case ExitUnlock => true
    case WaitScan(_, _, _) => true
    case WaitFreed(_) => true
    case WaitKill(_) => true
    case WaitOut => true
    case ForkLinked(_) => true
    case _ => false
  }

  /** A thread at pc holds the spinlock inside sleep-lock l. */
  predicate HoldsS(pc: Pc, l: int) {
    match pc
    case AcqTest(x) => x == l
    case AcqDone(x) => x == l
    case SleepStart(on) => on == OnLock(l)
    case SleepBoth(on) => on == OnLock(l)
    case RelOpen(x) => x == l
    case Wake(_, _, _, after) => after == AfterRel(l)
    case RelClose(x) => x == l
    case _ => false
  }

  /** Thread p, at pc and on a CPU or not, holds the lock of process q. */
  predicate HoldsP(pc: Pc, p: int, oncpu: bool, q: int) {
    match pc
    case Fresh => oncpu && q == p
    case YieldLocked(_) => q == p
    case YieldBack(_) => oncpu && q == p
    case SleepBoth(_) => q == p
    case SleepOnly(_) => q == p
    case SleepBack(_) => oncpu && q == p
    case Wake(_, k, has, _) => has && q == k
    case ExitMark => q == p
    case ExitUnlock => q == p
    case ExitSwitch => q == p
    case WaitScan(k, has, _) => has && q == k
    case WaitFreed(k) => q == k
    case WaitKill(has) => has && q == p
    case ForkScan(k, has) => has && q == k
    case ForkUsed(k) => q == k
    case ForkSet(k) => q == k
    case KillLocked(k) => q == k
    case _ => false
  }

  predicate OwnerOk(s: Sys, o: Owner) {
    match o
    case Free => true
    case Proc(p) => IsProc(s, p)
    case Sched(c) => IsCpu(s, c)
  }

  ghost predicate LocksW(s: Sys)
    requires Shape(s)
  {
    OwnerOk(s, s.wl) && !s.wl.Sched? && forall p :: IsProc(s, p) ==> (s.wl == Proc(p) <==> HoldsW(s.pc[p]))
  }

  ghost predicate LocksS(s: Sys)
    requires Shape(s)
  {
    && (forall l :: IsLock(s, l) ==> OwnerOk(s, s.sl[l]) && !s.sl[l].Sched?)
    && (forall p, l :: IsProc(s, p) && IsLock(s, l) ==> (s.sl[l] == Proc(p) <==> HoldsS(s.pc[p], l)))
  }

  ghost predicate LocksP(s: Sys)
    requires Shape(s)
  {
    && (forall q :: IsProc(s, q) ==> OwnerOk(s, s.pl[q]))
    && (forall p, q :: IsProc(s, p) && IsProc(s, q) ==> (s.pl[q] == Proc(p) <==> HoldsP(s.pc[p], p, s.on[p] >= 0, q)))
  }

  // ---- CPUs ----

  /** A CPU's view of the process it works on agrees with the process's. */
  ghost predicate Cpus(s: Sys)
    requires Shape(s)
  {
    && (forall p :: IsProc(s, p) ==> s.on[p] == -1 || (IsCpu(s, s.on[p]) && s.cpu[s.on[p]] == Running(p)))
    && (forall c :: IsCpu(s, c) ==> CpuOk(s, c))
    && (forall q :: IsProc(s, q) && s.pl[q].Sched? ==> IsCpu(s, s.pl[q].c) && AtWork(s.cpu[s.pl[q].c], q))
  }

  predicate AtWork(x: Cpu, q: int) {
    x == Looking(q) || x == Back(q)
  }

  predicate CpuOk(s: Sys, c: int)
    requires Shape(s) && IsCpu(s, c)
  {
    match s.cpu[c]
    case Idle => true
    case Looking(p) => IsProc(s, p) && s.pl[p] == Sched(c)
    case Back(p) => IsProc(s, p) && s.pl[p] == Sched(c) && s.on[p] == -1
    case Running(p) => IsProc(s, p) && s.on[p] == c
  }

  // ---- States ----

  /** The state and channel that go with a place in the code. */
  predicate StateOk(st: PState, chan: Chan, pc: Pc, oncpu: bool) {
    match pc
    case Fresh => chan == None && (if oncpu then st == RUNNING else st == UNUSED || st == USED || st == RUNNABLE)
    case YieldBack(_) => chan == None && st == if oncpu then RUNNING else RUNNABLE
    case SleepBack(on) => chan == on && (if oncpu then st == RUNNING else st == SLEEPING || st == RUNNABLE)
    case ExitUnlock => chan == None && oncpu && st == ZOMBIE
    case ExitSwitch => chan == None && oncpu && st == ZOMBIE
    case Dead => chan == None && !oncpu && st == ZOMBIE
    case _ => chan == None && oncpu && st == RUNNING
  }

  predicate SleepsOk(s: Sys, p: int, on: Chan) {
    match on
    case None => false
    case OnLock(l) => IsLock(s, l)
    case OnProc(q) => q == p
  }

  predicate RestOk(s: Sys, p: int, rest: Rest) {
    match rest
    case ToRun => true
    case ToForkScan(k) => 0 <= k <= |s.st|
    case ToForkLink(k) => IsProc(s, k)
    case ToForkReady(k) => IsProc(s, k)
    case ToSleepAgain(on) => SleepsOk(s, p, on)
  }

  /** The indices at a place in the code are in range. */
  predicate PlaceOk(s: Sys, p: int, pc: Pc) {
    match pc
    case YieldLocked(rest) => RestOk(s, p, rest)
    case YieldBack(rest) => RestOk(s, p, rest)
    case AcqTest(l) => IsLock(s, l)
    case AcqDone(l) => IsLock(s, l)
    case RelOpen(l) => IsLock(s, l)
    case RelClose(l) => IsLock(s, l)
    case SleepStart(on) => SleepsOk(s, p, on)
    case SleepBoth(on) => SleepsOk(s, p, on)
    case SleepOnly(on) => SleepsOk(s, p, on)
    case SleepBack(on) => SleepsOk(s, p, on)
    case SleepAgain(on) => SleepsOk(s, p, on)
    case Wake(on, k, has, after) =>
      && 0 <= k <= |s.st| && (has ==> k < |s.st| && k != p)
      && (match after
          case AfterRel(l) => on == OnLock(l) && IsLock(s, l)
          case AfterReparent(j) => on == OnProc(0) && IsProc(s, j) && p != 0
          case AfterParent => on.OnProc? && on.p != p && IsProc(s, on.p) && p != 0)
    case ExitReparent(k) => 0 <= k <= |s.st| && p != 0
    case ExitLock => p != 0
    case ExitMark => p != 0
    case ExitUnlock => p != 0
    case ExitSwitch => p != 0
    case Dead => p != 0
    case WaitScan(k, has, _) => 0 <= k <= |s.st| && (has ==> k < |s.st|)
    case WaitFreed(k) => IsProc(s, k)
    case ForkScan(k, has) => 0 <= k <= |s.st| && (has ==> k < |s.st|)
    case ForkUsed(k) => IsProc(s, k)
    case ForkLink(k) => IsProc(s, k)
    case ForkLinked(k) => IsProc(s, k)
    case ForkReady(k) => IsProc(s, k)
    case ForkSet(k) => IsProc(s, k)
    case KillLocked(k) => IsProc(s, k)
    case _ => true
  }

  ghost predicate States(s: Sys)
    requires Shape(s)
  {
    forall p :: IsProc(s, p) ==> StateOk(s.st[p], s.chan[p], s.pc[p], s.on[p] >= 0) && PlaceOk(s, p, s.pc[p])
  }

  /** The part of the invariant that everything else rests on. */
  ghost predicate Base(s: Sys) {
    Shape(s) && LocksW(s) && LocksS(s) && LocksP(s) && Cpus(s) && States(s)
  }

  // ---- Threads move: locks ----

  predicate FitsW(a: Pc, e: Event, b: Pc) {
    match e
    case GetW => !HoldsW(a) && HoldsW(b)
    case PutW => HoldsW(a) && !HoldsW(b)
    case _ => HoldsW(a) == HoldsW(b)
  }

  predicate FitsS(a: Pc, e: Event, b: Pc, l: int) {
    if e == GetS(l) then !HoldsS(a, l) && HoldsS(b, l)
    else if e == PutS(l) then HoldsS(a, l) && !HoldsS(b, l)
    else HoldsS(a, l) == HoldsS(b, l)
  }

  predicate FitsP(a: Pc, p: int, e: Event, b: Pc, q: int) {
    if e == GetP(q) then !HoldsP(a, p, true, q) && HoldsP(b, p, true, q)
    else if e == PutP(q) then HoldsP(a, p, true, q) && !HoldsP(b, p, true, q)
    else HoldsP(a, p, true, q) == HoldsP(b, p, true, q)
  }

  /** u is s with data changed: locks, CPUs and places are the same, but that a dead process may
      have become a fresh slot. */
  ghost predicate DataOnly(s: Sys, u: Sys, p: int)
    requires Shape(s)
  {
    && Shape(u) && |u.st| == |s.st| && |u.sl| == |s.sl| && u.on == s.on && u.cpu == s.cpu && u.pl == s.pl && u.wl == s.wl && u.sl == s.sl
    && IsProc(s, p) && u.pc[p] == s.pc[p]
    && forall q :: IsProc(s, q) ==> u.pc[q] == s.pc[q] || (s.pc[q].Dead? && u.pc[q].Fresh? && s.on[q] < 0)
  }

  lemma MovedW(s: Sys, u: Sys, t: Sys, p: int, e: Event, pc: Pc)
    requires Shape(s) && LocksW(s) && DataOnly(s, u, p) && Moved(u, t, p, e, pc) && FitsW(s.pc[p], e, pc)
    ensures LocksW(t)
  {
    forall q | IsProc(t, q) ensures t.wl == Proc(q) <==> HoldsW(t.pc[q]) {
      assert s.wl == Proc(q) <==> HoldsW(s.pc[q]);
      assert s.wl == Proc(p) <==> HoldsW(s.pc[p]);
    }
  }

  lemma MovedS(s: Sys, u: Sys, t: Sys, p: int, e: Event, pc: Pc)
    requires Shape(s) && LocksS(s) && DataOnly(s, u, p) && Moved(u, t, p, e, pc)
    requires forall l :: FitsS(s.pc[p], e, pc, l)
    ensures LocksS(t)
  {
    forall q, l | IsProc(t, q) && IsLock(t, l) ensures t.sl[l] == Proc(q) <==> HoldsS(t.pc[q], l) {
      assert s.sl[l] == Proc(q) <==> HoldsS(s.pc[q], l);
      assert s.sl[l] == Proc(p) <==> HoldsS(s.pc[p], l);
      assert FitsS(s.pc[p], e, pc, l);
    }
  }

  lemma MovedP(s: Sys, u: Sys, t: Sys, p: int, e: Event, pc: Pc)
    requires Shape(s) && LocksP(s) && IsProc(s, p) && s.on[p] >= 0 && DataOnly(s, u, p) && Moved(u, t, p, e, pc)
    requires forall q :: FitsP(s.pc[p], p, e, pc, q)
    ensures LocksP(t)
  {
    forall q, k | IsProc(t, q) && IsProc(t, k) ensures t.pl[k] == Proc(q) <==> HoldsP(t.pc[q], q, t.on[q] >= 0, k) {
      assert s.pl[k] == Proc(q) <==> HoldsP(s.pc[q], q, s.on[q] >= 0, k);
      assert s.pl[k] == Proc(p) <==> HoldsP(s.pc[p], p, s.on[p] >= 0, k);
      assert FitsP(s.pc[p], p, e, pc, k);
    }
  }

  lemma MovedCpus(s: Sys, u: Sys, t: Sys, p: int, e: Event, pc: Pc)
    requires Base(s) && IsProc(s, p) && s.on[p] >= 0 && DataOnly(s, u, p) && Moved(u, t, p, e, pc)
    requires forall q :: FitsP(s.pc[p], p, e, pc, q)
    ensures Cpus(t)
  {
    hide HoldsP, HoldsW, HoldsS, StateOk, PlaceOk, LocksW, LocksS;
    forall q | IsProc(s, q) && s.pl[q].Sched? ensures t.pl[q] == s.pl[q] {
      assert FitsP(s.pc[p], p, e, pc, q);
      assert s.pl[q] == Proc(p) <==> HoldsP(s.pc[p], p, s.on[p] >= 0, q);
    }
    forall q | IsProc(s, q) && t.pl[q].Sched? ensures t.pl[q] == s.pl[q] {
    }
    forall c | IsCpu(t, c) ensures CpuOk(t, c) {
      assert CpuOk(s, c);
    }
  }

  /** Locks and places go together in a move of thread p from a to b. */
  ghost predicate Fits(a: Pc, p: int, e: Event, b: Pc) {
    FitsW(a, e, b) && (forall l :: FitsS(a, e, b, l)) && (forall q :: FitsP(a, p, e, b, q))
  }

  /** How another process may be changed by a step. */
  predicate Changed(a: PState, b: PState, x: Chan, y: Chan, c: Pc, d: Pc, oncpu: bool) {
    || (a == b && x == y && c == d)
    || (a == SLEEPING && b == RUNNABLE && x == y && c == d)
    || (!oncpu && c.Dead? && d.Fresh? && b == UNUSED && y == None)
    || (!oncpu && c.Fresh? && d.Fresh? && x == y && (a == UNUSED || a == USED) && (b == UNUSED || b == USED || b == RUNNABLE))
  }

  lemma ChangedOk(a: PState, b: PState, x: Chan, y: Chan, c: Pc, d: Pc, oncpu: bool)
    requires StateOk(a, x, c, oncpu) && Changed(a, b, x, y, c, d, oncpu)
    ensures StateOk(b, y, d, oncpu)
  {
  }

  /** Effect f of thread p suits its new place, and changes other processes lawfully. */
  ghost predicate Sound(s: Sys, p: int, f: Effect)
    requires Shape(s) && IsProc(s, p)
  {
    && Fits(s.pc[p], p, f.ev, f.dest) && DataOnly(s, f.data, p)
    && StateOk(f.data.st[p], f.data.chan[p], f.dest, true) && PlaceOk(s, p, f.dest)
    && forall q :: IsProc(s, q) && q != p ==>
         Changed(s.st[q], f.data.st[q], s.chan[q], f.data.chan[q], s.pc[q], f.data.pc[q], s.on[q] >= 0)
  }

  lemma MovedStates(s: Sys, t: Sys, p: int, f: Effect)
    requires Shape(s) && States(s) && IsProc(s, p) && s.on[p] >= 0 && Sound(s, p, f) && Moved(f.data, t, p, f.ev, f.dest)
    ensures Shape(t) && States(t)
  {
    hide StateOk, PlaceOk, Fits, Changed;
    forall q | IsProc(t, q) ensures StateOk(t.st[q], t.chan[q], t.pc[q], t.on[q] >= 0) && PlaceOk(t, q, t.pc[q]) {
      PlaceSame(s, t, q, t.pc[q]);
      if q != p {
        ChangedOk(s.st[q], f.data.st[q], s.chan[q], f.data.chan[q], s.pc[q], f.data.pc[q], s.on[q] >= 0);
        FreshPlace(s, q);
      }
    }
  }

  lemma PlaceSame(s: Sys, t: Sys, q: int, pc: Pc)
    requires |t.st| == |s.st| && |t.sl| == |s.sl|
    ensures PlaceOk(t, q, pc) == PlaceOk(s, q, pc)
  {
  }

  lemma FreshPlace(s: Sys, q: int)
    ensures PlaceOk(s, q, Fresh)
  {
  }

  lemma MoveKeeps(s: Sys, t: Sys, p: int, f: Effect)
    requires Base(s) && IsProc(s, p) && s.on[p] >= 0 && Sound(s, p, f) && Moved(f.data, t, p, f.ev, f.dest)
    ensures Base(t)
  {
    hide HoldsP, HoldsW, HoldsS, StateOk, PlaceOk, LocksW, LocksS, LocksP, Cpus, FitsP, FitsS, FitsW, States, Changed;
    MovedW(s, f.data, t, p, f.ev, f.dest);
    MovedS(s, f.data, t, p, f.ev, f.dest);
    MovedP(s, f.data, t, p, f.ev, f.dest);
    MovedCpus(s, f.data, t, p, f.ev, f.dest);
    MovedStates(s, t, p, f);
  }

  /** What is known of thread p from its place. */
  lemma Here(s: Sys, p: int)
    requires Base(s) && OnCpu(s, p)
    ensures StateOk(s.st[p], s.chan[p], s.pc[p], true) && PlaceOk(s, p, s.pc[p])
  {
    hide StateOk, PlaceOk, LocksW, LocksS, LocksP, Cpus;
  }

  lemma CallSound(s: Sys, p: int, what: Choice)
    requires Base(s) && OnCpu(s, p) && KindOf(s.pc[p]) == Calls
    requires Able(Begin(s, p, what))
    ensures Sound(s, p, Begin(s, p, what))
  {
    hide LocksW, LocksS, LocksP, Cpus, States;
    Here(s, p);
  }

  lemma TimerSound(s: Sys, p: int)
    requires Base(s) && OnCpu(s, p) && Preempt(s, p).can
    ensures Sound(s, p, Preempt(s, p))
  {
    hide LocksW, LocksS, LocksP, Cpus, States;
    Here(s, p);
  }

  lemma LockSound(s: Sys, p: int)
    requires Base(s) && OnCpu(s, p) && KindOf(s.pc[p]) == Locks && DoLock(s, p).can
    ensures Sound(s, p, DoLock(s, p))
  {
    hide LocksW, LocksS, LocksP, Cpus, States;
    Here(s, p);
  }

  lemma SleepSound(s: Sys, p: int)
    requires Base(s) && OnCpu(s, p) && KindOf(s.pc[p]) == Sleeps && DoSleep(s, p).can
    ensures Sound(s, p, DoSleep(s, p))
  {
    hide LocksW, LocksS, LocksP, Cpus, States;
    Here(s, p);
  }

  lemma WakeFits(s: Sys, p: int)
    requires Base(s) && OnCpu(s, p) && KindOf(s.pc[p]) == Wakes
    requires Able(DoWake(s, p))
    ensures var f := DoWake(s, p); Fits(s.pc[p], p, f.ev, f.dest)
  {
    hide LocksW, LocksS, LocksP, Cpus, States, StateOk, Changed;
    Here(s, p);
  }

  lemma WakeSound(s: Sys, p: int)
    requires Base(s) && OnCpu(s, p) && KindOf(s.pc[p]) == Wakes
    requires Able(DoWake(s, p))
    ensures Sound(s, p, DoWake(s, p))
  {
    hide LocksW, LocksS, LocksP, Cpus, States, Fits;
    Here(s, p);
    WakeFits(s, p);
  }

  lemma ExitSound(s: Sys, p: int)
    requires Base(s) && OnCpu(s, p) && KindOf(s.pc[p]) == Exits && DoExit(s, p).can
    requires s.pc[p].ExitReparent? ==> IsProc(s, s.parent[p]) && s.parent[p] != p
    ensures Sound(s, p, DoExit(s, p))
  {
    hide LocksW, LocksS, LocksP, Cpus, States;
    Here(s, p);
  }

  /** A zombie whose lock another process holds has left its CPU for good. */
  lemma ZombieDead(s: Sys, p: int, k: int)
    requires Base(s) && IsProc(s, p) && IsProc(s, k) && s.pl[k] == Proc(p) && p != k && s.st[k] == ZOMBIE
    ensures s.pc[k].Dead? && s.on[k] < 0
  {
    hide LocksW, LocksS, Cpus, PlaceOk;
    assert StateOk(s.st[k], s.chan[k], s.pc[k], s.on[k] >= 0);
    assert s.pl[k] == Proc(k) <==> HoldsP(s.pc[k], k, s.on[k] >= 0, k);
  }

  lemma HoldsChild(s: Sys, p: int, k: int)
    requires Base(s) && OnCpu(s, p) && IsProc(s, k) && HoldsP(s.pc[p], p, true, k)
    ensures s.pl[k] == Proc(p)
  {
    hide LocksW, LocksS, Cpus, States, HoldsP;
    assert s.pl[k] == Proc(p) <==> HoldsP(s.pc[p], p, s.on[p] >= 0, k);
  }

  lemma WaitFits(s: Sys, p: int, what: Choice)
    requires Base(s) && OnCpu(s, p) && KindOf(s.pc[p]) == Waits
    requires Able(DoWait(s, p, what))
    ensures var f := DoWait(s, p, what); Fits(s.pc[p], p, f.ev, f.dest)
  {
    hide LocksW, LocksS, LocksP, Cpus, States, StateOk, Changed;
    Here(s, p);
  }

  lemma WaitSound(s: Sys, p: int, what: Choice)
    requires Base(s) && OnCpu(s, p) && KindOf(s.pc[p]) == Waits
    requires Able(DoWait(s, p, what))
    ensures Sound(s, p, DoWait(s, p, what))
  {
    hide LocksW, LocksS, LocksP, Cpus, States, Fits;
    Here(s, p);
    WaitFits(s, p, what);
    if s.pc[p].WaitScan? && s.pc[p].has && s.st[s.pc[p].k] == ZOMBIE {
      HoldsChild(s, p, s.pc[p].k);
      ZombieDead(s, p, s.pc[p].k);
    }
  }

  /** A slot that is not in use is nowhere in the code. */
  lemma SlotFresh(s: Sys, k: int)
    requires Base(s) && IsProc(s, k) && (s.st[k] == UNUSED || s.st[k] == USED)
    ensures s.pc[k].Fresh? && s.on[k] < 0
  {
    hide LocksW, LocksS, LocksP, Cpus, PlaceOk;
    assert StateOk(s.st[k], s.chan[k], s.pc[k], s.on[k] >= 0);
  }

  lemma ForkFits(s: Sys, p: int, what: Choice)
    requires Base(s) && OnCpu(s, p) && KindOf(s.pc[p]) == Forks
    requires Able(DoFork(s, p, what))
    ensures var f := DoFork(s, p, what); Fits(s.pc[p], p, f.ev, f.dest)
  {
    hide LocksW, LocksS, LocksP, Cpus, States, StateOk, Changed;
    Here(s, p);
  }

  lemma ForkSound(s: Sys, p: int, what: Choice)
    requires Base(s) && OnCpu(s, p) && KindOf(s.pc[p]) == Forks
    requires Able(DoFork(s, p, what))
    requires (s.pc[p].ForkUsed? || s.pc[p].ForkReady?) ==> s.st[s.pc[p].k] == USED
    ensures Sound(s, p, DoFork(s, p, what))
  {
    hide LocksW, LocksS, LocksP, Cpus, States, Fits;
    Here(s, p);
    ForkFits(s, p, what);
    if !s.pc[p].ForkLink? && !s.pc[p].ForkLinked? && IsProc(s, s.pc[p].k) && (s.st[s.pc[p].k] == UNUSED || s.st[s.pc[p].k] == USED) {
      SlotFresh(s, s.pc[p].k);
    }
  }
}
