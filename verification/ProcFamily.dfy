/** Parents and children: every parent is alive, an exiting process keeps no child, and a new
    slot belongs to the process that forks. */
module ProcFamily {
  import opened ProcModel
  import opened ProcInv

  predicate Live(st: PState) {
    st == SLEEPING || st == RUNNABLE || st == RUNNING
  }

  /** A process at pc may still have child q: exit gives its children away in order. */
  predicate MayHave(pc: Pc, q: int) {
    match pc
    case ExitReparent(k) => k <= q
    case Wake(_, _, _, after) =>
      (match after
       case AfterRel(_) => true
       case AfterReparent(j) => j < q
       case AfterParent => false)
    case ExitLock => false
    case ExitMark => false
    case ExitUnlock => false
    case ExitSwitch => false
    case Dead => false
    case _ => true
  }

  predicate ParentOk(s: Sys, q: int)
    requires Shape(s) && IsProc(s, q)
  {
    var r := s.parent[q];
    && (r == -1 || (IsProc(s, r) && r != q && Live(s.st[r]) && MayHave(s.pc[r], q)))
    && (s.st[q] == UNUSED ==> r == -1)
    && (s.st[q] != UNUSED && s.st[q] != USED && q != 0 ==> r != -1)
    && (q == 0 ==> r == -1 && Live(s.st[q]))
  }

  /** Slot k, which p is making, with parent r. */
  predicate SlotOk(s: Sys, p: int, k: int, r: int)
    requires Shape(s)
  {
    IsProc(s, k) && s.st[k] == USED && s.maker[k] == p && s.parent[k] == r
  }

  predicate RestMaking(s: Sys, p: int, rest: Rest)
    requires Shape(s)
  {
    match rest
    case ToForkLink(k) => SlotOk(s, p, k, -1)
    case ToForkReady(k) => SlotOk(s, p, k, p)
    case _ => true
  }

  /** What p relies on at pc about the slot it forks, its parent, or the child it looks at. */
  predicate MakingOk(s: Sys, p: int, pc: Pc)
    requires Shape(s)
  {
    match pc
    case ForkUsed(k) => SlotOk(s, p, k, -1)
    case ForkLink(k) => SlotOk(s, p, k, -1)
    case ForkLinked(k) => SlotOk(s, p, k, p)
    case ForkReady(k) => SlotOk(s, p, k, p)
    case YieldLocked(rest) => RestMaking(s, p, rest)
    case YieldBack(rest) => RestMaking(s, p, rest)
    case Wake(on, _, _, after) => after.AfterParent? && IsProc(s, p) ==> on == OnProc(s.parent[p])
    case WaitScan(k, has, _) => has ==> IsProc(s, k) && s.parent[k] == p
    case _ => true
  }

  ghost predicate Family(s: Sys)
    requires Shape(s)
  {
    && (forall q :: IsProc(s, q) ==> ParentOk(s, q))
    && (forall p :: IsProc(s, p) ==> MakingOk(s, p, s.pc[p]))
  }

  /** Living, exited, unused, or being made. */
  function Class(st: PState): int {
    if st == UNUSED then 0 else if st == USED then 1 else if st == ZOMBIE then 2 else 3
  }

  /** An effect that changes nobody's parent or class, and is in order at its destination. */
  ghost predicate KeepsFamily(s: Sys, p: int, f: Effect)
    requires Shape(s) && IsProc(s, p)
  {
    && DataOnly(s, f.data, p) && f.data.parent == s.parent && f.data.maker == s.maker && f.data.pc == s.pc
    && (forall q :: IsProc(s, q) ==> Class(f.data.st[q]) == Class(s.st[q]))
    && (forall q :: IsProc(s, q) && s.parent[q] == p && MayHave(s.pc[p], q) ==> MayHave(f.dest, q))
    && MakingOk(s, p, f.dest)
  }

  lemma FamilyMove(s: Sys, t: Sys, p: int, f: Effect)
    requires Shape(s) && Family(s) && IsProc(s, p) && KeepsFamily(s, p, f) && Moved(f.data, t, p, f.ev, f.dest)
    ensures Shape(t) && Family(t)
  {
    hide MayHave, ParentOk, MakingOk;
    forall q | IsProc(t, q) ensures ParentOk(t, q) {
      ParentMove(s, t, p, f, q);
    }
    forall q | IsProc(t, q) ensures MakingOk(t, q, t.pc[q]) {
      MakingSame(s, t, q, t.pc[q]);
    }
  }

  lemma ParentMove(s: Sys, t: Sys, p: int, f: Effect, q: int)
    requires Shape(s) && IsProc(s, p) && KeepsFamily(s, p, f) && Moved(f.data, t, p, f.ev, f.dest) && IsProc(s, q) && ParentOk(s, q)
    ensures Shape(t) && IsProc(t, q) && ParentOk(t, q)
  {
    MoveFacts(s, t, p, f);
    ParentKept(s, t, p, f.dest, q);
  }

  lemma MoveFacts(s: Sys, t: Sys, p: int, f: Effect)
    requires Shape(s) && IsProc(s, p) && KeepsFamily(s, p, f) && Moved(f.data, t, p, f.ev, f.dest)
    ensures Shape(t) && |t.st| == |s.st| && t.parent == s.parent && t.pc == s.pc[p := f.dest]
    ensures forall q :: IsProc(s, q) ==> Class(t.st[q]) == Class(s.st[q])
    ensures forall q :: IsProc(s, q) && s.parent[q] == p && MayHave(s.pc[p], q) ==> MayHave(f.dest, q)
  {
    hide MayHave, MakingOk, Class;
  }

  lemma ParentKept(s: Sys, t: Sys, p: int, dest: Pc, q: int)
    requires Shape(s) && Shape(t) && IsProc(s, p) && IsProc(s, q) && |t.st| == |s.st| && t.parent == s.parent && t.pc == s.pc[p := dest]
    requires forall k :: IsProc(s, k) ==> Class(t.st[k]) == Class(s.st[k])
    requires s.parent[q] == p && MayHave(s.pc[p], q) ==> MayHave(dest, q)
    requires ParentOk(s, q)
    ensures ParentOk(t, q)
  {
    hide MayHave;
    assert Class(t.st[q]) == Class(s.st[q]);
    var r := s.parent[q];
    if r != -1 {
      assert Class(t.st[r]) == Class(s.st[r]);
    }
  }

  lemma MakingSame(s: Sys, t: Sys, q: int, pc: Pc)
    requires Shape(s) && Shape(t) && |t.st| == |s.st| && t.parent == s.parent && t.maker == s.maker
    requires forall k :: IsProc(s, k) ==> Class(t.st[k]) == Class(s.st[k])
    ensures MakingOk(s, q, pc) == MakingOk(t, q, pc)
  {
  }

  // ---- Threads whose step changes no family tie ----

  lemma CallFamily(s: Sys, p: int, what: Choice)
    requires Base(s) && OnCpu(s, p) && KindOf(s.pc[p]) == Calls && Begin(s, p, what).can
    ensures KeepsFamily(s, p, Begin(s, p, what))
  {
    hide LocksW, LocksS, LocksP, Cpus, States;
    Ranges(s, p);
  }

  lemma TimerFamily(s: Sys, p: int)
    requires Base(s) && Family(s) && OnCpu(s, p) && Preempt(s, p).can
    ensures KeepsFamily(s, p, Preempt(s, p))
  {
    hide LocksW, LocksS, LocksP, Cpus, States, ParentOk;
    assert MakingOk(s, p, s.pc[p]);
  }

  /** Processes are numbered from 0. */
  lemma Ranges(s: Sys, p: int)
    requires Shape(s)
    ensures forall q :: IsProc(s, q) ==> MayHave(ExitReparent(0), q)
  {
  }

  lemma LockFamily(s: Sys, p: int)
    requires Base(s) && OnCpu(s, p) && KindOf(s.pc[p]) == Locks && DoLock(s, p).can
    ensures KeepsFamily(s, p, DoLock(s, p))
  {
    hide LocksW, LocksS, LocksP, Cpus, States;
  }

  lemma SleepFamily(s: Sys, p: int)
    requires Base(s) && Family(s) && OnCpu(s, p) && KindOf(s.pc[p]) == Sleeps && DoSleep(s, p).can
    ensures KeepsFamily(s, p, DoSleep(s, p))
  {
    hide LocksW, LocksS, LocksP, Cpus, States, ParentOk;
    assert MakingOk(s, p, s.pc[p]);
  }

  lemma WakeFamily(s: Sys, p: int)
    requires Base(s) && Family(s) && OnCpu(s, p) && KindOf(s.pc[p]) == Wakes && DoWake(s, p).can
    ensures KeepsFamily(s, p, DoWake(s, p))
  {
    hide LocksW, LocksS, LocksP, Cpus, States, ParentOk;
    assert MakingOk(s, p, s.pc[p]);
  }

  /** exit, but for giving a child away and becoming a zombie. */
  lemma ExitFamily(s: Sys, p: int)
    requires Base(s) && OnCpu(s, p) && KindOf(s.pc[p]) == Exits && DoExit(s, p).can
    requires !s.pc[p].ExitMark? && (s.pc[p].ExitReparent? && IsProc(s, s.pc[p].k) ==> s.parent[s.pc[p].k] != p)
    ensures KeepsFamily(s, p, DoExit(s, p))
  {
    hide LocksW, LocksS, LocksP, Cpus, States;
    Here(s, p);
  }

  /** wait, but for reaping. */
  lemma WaitFamily(s: Sys, p: int, what: Choice)
    requires Base(s) && OnCpu(s, p) && KindOf(s.pc[p]) == Waits && DoWait(s, p, what).can && DoWait(s, p, what).data == s
    ensures KeepsFamily(s, p, DoWait(s, p, what))
  {
    hide LocksW, LocksS, LocksP, Cpus, States;
  }

  /** fork, where it changes no data. */
  lemma ForkFamily(s: Sys, p: int, what: Choice)
    requires Base(s) && Family(s) && OnCpu(s, p) && KindOf(s.pc[p]) == Forks && DoFork(s, p, what).can && DoFork(s, p, what).data == s
    ensures KeepsFamily(s, p, DoFork(s, p, what))
  {
    hide LocksW, LocksS, LocksP, Cpus, States, ParentOk;
    assert MakingOk(s, p, s.pc[p]);
  }

  // ---- Steps that change the family ----

  /** exit gives child k to init. */
  ghost predicate Gives(s: Sys, t: Sys, p: int, k: int) {
    && Base(s) && Family(s) && OnCpu(s, p) && s.pc[p] == ExitReparent(k) && IsProc(s, k) && s.parent[k] == p
    && Moved(s.(parent := s.parent[k := 0]), t, p, Nop, Wake(OnProc(0), 0, false, AfterReparent(k)))
  }

  lemma GiveKeeps(s: Sys, t: Sys, p: int, k: int)
    requires Gives(s, t, p, k)
    ensures Shape(t) && Family(t)
  {
    hide Base, MakingOk, ParentOk;
    assert Shape(s) by { BaseShape(s); }
    forall q | IsProc(t, q) ensures ParentOk(t, q) {
      GiveParent(s, t, p, k, q);
    }
    forall q | IsProc(t, q) ensures MakingOk(t, q, t.pc[q]) {
      GiveMaking(s, t, p, k, q);
    }
  }

  lemma BaseShape(s: Sys)
    requires Base(s)
    ensures Shape(s)
  {
  }

  lemma GiveParent(s: Sys, t: Sys, p: int, k: int, q: int)
    requires Gives(s, t, p, k) && IsProc(s, q)
    ensures Shape(t) && IsProc(t, q) && ParentOk(t, q)
  {
    hide LocksW, LocksS, LocksP, Cpus, States, PlaceOk, StateOk, MakingOk;
    ExitNotInit(s, p);
    InitStays(s);
    assert ParentOk(s, k) && ParentOk(s, 0) && ParentOk(s, q);
  }

  lemma ExitNotInit(s: Sys, p: int)
    requires Base(s) && OnCpu(s, p) && s.pc[p].ExitReparent?
    ensures p != 0
  {
    Here(s, p);
  }

  lemma GiveMaking(s: Sys, t: Sys, p: int, k: int, q: int)
    requires Gives(s, t, p, k) && IsProc(s, q)
    ensures Shape(t) && IsProc(t, q) && MakingOk(t, q, t.pc[q])
  {
    hide LocksS, LocksP, Cpus, States, PlaceOk, StateOk, ParentOk;
    assert MakingOk(s, q, s.pc[q]);
    assert s.wl == Proc(p) <==> HoldsW(s.pc[p]);
    assert s.wl == Proc(q) <==> HoldsW(s.pc[q]);
  }

  /** init is not in exit. */
  lemma InitStays(s: Sys)
    requires Base(s)
    ensures forall q :: MayHave(s.pc[0], q)
  {
    hide LocksW, LocksS, LocksP, Cpus, StateOk;
    assert PlaceOk(s, 0, s.pc[0]);
  }

  /** exit: p becomes a zombie. */
  ghost predicate Leaves(s: Sys, t: Sys, p: int) {
    Base(s) && Family(s) && OnCpu(s, p) && s.pc[p] == ExitMark && Moved(SetSt(s, p, ZOMBIE), t, p, Nop, ExitUnlock)
  }

  lemma ExitKeeps(s: Sys, t: Sys, p: int)
    requires Leaves(s, t, p)
    ensures Shape(t) && Family(t)
  {
    hide Base, MakingOk, ParentOk;
    assert Shape(s) by { BaseShape(s); }
    forall q | IsProc(t, q) ensures ParentOk(t, q) {
      ExitParent(s, t, p, q);
    }
    forall q | IsProc(t, q) ensures MakingOk(t, q, t.pc[q]) {
      ExitMaking(s, t, p, q);
    }
  }

  lemma ExitParent(s: Sys, t: Sys, p: int, q: int)
    requires Leaves(s, t, p) && IsProc(s, q)
    ensures Shape(t) && IsProc(t, q) && ParentOk(t, q)
  {
    hide LocksW, LocksS, LocksP, Cpus, States, MakingOk;
    Here(s, p);
    assert ParentOk(s, p) && ParentOk(s, q);
  }

  lemma ExitMaking(s: Sys, t: Sys, p: int, q: int)
    requires Leaves(s, t, p) && IsProc(s, q)
    ensures Shape(t) && IsProc(t, q) && MakingOk(t, q, t.pc[q])
  {
    hide LocksW, LocksS, LocksP, Cpus, States, ParentOk, PlaceOk;
    Here(s, p);
    assert MakingOk(s, q, s.pc[q]);
  }

  /** wait: p reaps its zombie child k. */
  ghost predicate Reaps(s: Sys, t: Sys, p: int, k: int) {
    && Base(s) && Family(s) && OnCpu(s, p) && s.pc[p].WaitScan? && s.pc[p].has && s.pc[p].k == k && IsProc(s, k) && s.st[k] == ZOMBIE
    && Moved(Freed(s, p, k), t, p, Nop, WaitFreed(k))
  }

  lemma ReapKeeps(s: Sys, t: Sys, p: int, k: int)
    requires Reaps(s, t, p, k)
    ensures Shape(t) && Family(t)
  {
    hide Base, MakingOk, ParentOk;
    assert Shape(s) by { BaseShape(s); }
    forall q | IsProc(t, q) ensures ParentOk(t, q) {
      ReapParent(s, t, p, k, q);
    }
    forall q | IsProc(t, q) ensures MakingOk(t, q, t.pc[q]) {
      ReapMaking(s, t, p, k, q);
    }
  }

  lemma ReapParent(s: Sys, t: Sys, p: int, k: int, q: int)
    requires Reaps(s, t, p, k) && IsProc(s, q)
    ensures Shape(t) && IsProc(t, q) && ParentOk(t, q)
  {
    hide Base, MakingOk, ParentOk, Moved;
    BaseShape(s);
    ReapFacts(s, t, p, k);
    assert ParentOk(s, k) && ParentOk(s, q);
    ParentReaped(s, t, p, k, q);
  }

  lemma ReapFacts(s: Sys, t: Sys, p: int, k: int)
    requires Reaps(s, t, p, k)
    ensures Shape(s) && Shape(t) && |t.st| == |s.st| && IsProc(s, p) && p != k && Live(s.st[p]) && MayHave(s.pc[p], k)
    ensures t.parent == s.parent[k := -1] && t.st == s.st[k := UNUSED] && t.pc == s.pc[k := Fresh][p := WaitFreed(k)] && s.pc[p].WaitScan?
  {
    hide LocksW, LocksS, LocksP, Cpus, States, MakingOk, ParentOk, PlaceOk;
    Here(s, p);
  }

  lemma ParentReaped(s: Sys, t: Sys, p: int, k: int, q: int)
    requires Shape(s) && Shape(t) && |t.st| == |s.st| && IsProc(s, p) && IsProc(s, k) && IsProc(s, q) && p != k && s.pc[p].WaitScan?
    requires t.parent == s.parent[k := -1] && t.st == s.st[k := UNUSED] && t.pc == s.pc[k := Fresh][p := WaitFreed(k)]
    requires s.st[k] == ZOMBIE && ParentOk(s, k) && ParentOk(s, q)
    ensures ParentOk(t, q)
  {
  }

  lemma ReapMaking(s: Sys, t: Sys, p: int, k: int, q: int)
    requires Reaps(s, t, p, k) && IsProc(s, q)
    ensures Shape(t) && IsProc(t, q) && MakingOk(t, q, t.pc[q])
  {
    hide LocksS, LocksP, Cpus, States, ParentOk, PlaceOk;
    Here(s, p);
    assert MakingOk(s, q, s.pc[q]);
    assert s.wl == Proc(p) <==> HoldsW(s.pc[p]);
    assert s.wl == Proc(q) <==> HoldsW(s.pc[q]);
  }

  /** allocproc: p takes the unused slot k. */
  ghost predicate Takes(s: Sys, t: Sys, p: int, k: int) {
    && Base(s) && Family(s) && OnCpu(s, p) && s.pc[p] == ForkScan(k, true) && IsProc(s, k) && s.st[k] == UNUSED
    && Moved(Allocated(s, p, k), t, p, Nop, ForkUsed(k))
  }

  lemma TakeKeeps(s: Sys, t: Sys, p: int, k: int)
    requires Takes(s, t, p, k)
    ensures Shape(t) && Family(t)
  {
    hide Base, MakingOk, ParentOk;
    assert Shape(s) by { BaseShape(s); }
    forall q | IsProc(t, q) ensures ParentOk(t, q) {
      TakeParent(s, t, p, k, q);
    }
    forall q | IsProc(t, q) ensures MakingOk(t, q, t.pc[q]) {
      TakeMaking(s, t, p, k, q);
    }
  }

  lemma TakeParent(s: Sys, t: Sys, p: int, k: int, q: int)
    requires Takes(s, t, p, k) && IsProc(s, q)
    ensures Shape(t) && IsProc(t, q) && ParentOk(t, q)
  {
    hide LocksW, LocksS, LocksP, Cpus, States, MakingOk, PlaceOk;
    Here(s, p);
    assert ParentOk(s, k) && ParentOk(s, q);
  }

  lemma TakeMaking(s: Sys, t: Sys, p: int, k: int, q: int)
    requires Takes(s, t, p, k) && IsProc(s, q)
    ensures Shape(t) && IsProc(t, q) && MakingOk(t, q, t.pc[q])
  {
    hide LocksW, LocksS, LocksP, Cpus, States, PlaceOk;
    assert ParentOk(s, k);
    assert MakingOk(s, q, s.pc[q]);
  }

  /** fork: p gives up slot k, links it to itself, or lets it run. */
  ghost predicate Makes(s: Sys, t: Sys, p: int, k: int) {
    && Base(s) && Family(s) && OnCpu(s, p) && IsProc(s, k)
    && (|| (s.pc[p] == ForkUsed(k) && Moved(Unallocated(s, k), t, p, PutP(k), Run))
        || (s.pc[p] == ForkLink(k) && Moved(s.(parent := s.parent[k := p]), t, p, GetW, ForkLinked(k)))
        || (s.pc[p] == ForkReady(k) && Moved(SetSt(s, k, RUNNABLE), t, p, GetP(k), ForkSet(k))))
  }

  lemma MakeKeeps(s: Sys, t: Sys, p: int, k: int)
    requires Makes(s, t, p, k)
    ensures Shape(t) && Family(t)
  {
    hide Base, MakingOk, ParentOk;
    assert Shape(s) by { BaseShape(s); }
    forall q | IsProc(t, q) ensures ParentOk(t, q) {
      MakeParent(s, t, p, k, q);
    }
    forall q | IsProc(t, q) ensures MakingOk(t, q, t.pc[q]) {
      MakeMaking(s, t, p, k, q);
    }
  }

  lemma MakeParent(s: Sys, t: Sys, p: int, k: int, q: int)
    requires Makes(s, t, p, k) && IsProc(s, q)
    ensures Shape(t) && IsProc(t, q) && ParentOk(t, q)
  {
    hide Base, Family, ParentOk, MakingOk, Moved;
    BaseShape(s);
    if s.pc[p].ForkUsed? {
      FailParent(s, t, p, k, q);
    } else if s.pc[p].ForkLink? {
      LinkParent(s, t, p, k, q);
    } else {
      ReadyParent(s, t, p, k, q);
    }
  }

  lemma FailParent(s: Sys, t: Sys, p: int, k: int, q: int)
    requires Makes(s, t, p, k) && IsProc(s, q) && s.pc[p].ForkUsed?
    ensures Shape(t) && IsProc(t, q) && ParentOk(t, q)
  {
    hide LocksW, LocksS, LocksP, Cpus, States, PlaceOk, StateOk, HoldsP, HoldsS, HoldsW, MakingOk;
    ForkRuns(s, p);
    SlotFacts(s, p, k);
    assert ParentOk(s, k) && ParentOk(s, q);
  }

  lemma LinkParent(s: Sys, t: Sys, p: int, k: int, q: int)
    requires Makes(s, t, p, k) && IsProc(s, q) && s.pc[p].ForkLink?
    ensures Shape(t) && IsProc(t, q) && ParentOk(t, q)
  {
    hide LocksW, LocksS, LocksP, Cpus, States, PlaceOk, StateOk, HoldsP, HoldsS, HoldsW, MakingOk;
    ForkRuns(s, p);
    SlotFacts(s, p, k);
    assert ParentOk(s, k) && ParentOk(s, q) && ParentOk(s, 0);
  }

  lemma ReadyParent(s: Sys, t: Sys, p: int, k: int, q: int)
    requires Makes(s, t, p, k) && IsProc(s, q) && s.pc[p].ForkReady?
    ensures Shape(t) && IsProc(t, q) && ParentOk(t, q)
  {
    hide LocksW, LocksS, LocksP, Cpus, States, PlaceOk, StateOk, HoldsP, HoldsS, HoldsW, MakingOk;
    ForkRuns(s, p);
    SlotFacts(s, p, k);
    assert ParentOk(s, k) && ParentOk(s, q) && ParentOk(s, 0);
  }

  lemma SlotFacts(s: Sys, p: int, k: int)
    requires Shape(s) && Family(s) && IsProc(s, p) && (s.pc[p] == ForkUsed(k) || s.pc[p] == ForkLink(k) || s.pc[p] == ForkReady(k))
    ensures IsProc(s, k) && s.st[k] == USED && s.parent[k] == if s.pc[p].ForkReady? then p else -1
  {
    hide ParentOk;
    assert MakingOk(s, p, s.pc[p]);
  }

  lemma ForkRuns(s: Sys, p: int)
    requires Base(s) && OnCpu(s, p) && (s.pc[p].ForkUsed? || s.pc[p].ForkLink? || s.pc[p].ForkReady?)
    ensures s.st[p] == RUNNING
  {
    hide LocksW, LocksS, LocksP, Cpus, PlaceOk;
    Here(s, p);
  }

  lemma MakeMaking(s: Sys, t: Sys, p: int, k: int, q: int)
    requires Makes(s, t, p, k) && IsProc(s, q)
    ensures Shape(t) && IsProc(t, q) && MakingOk(t, q, t.pc[q])
  {
    hide Base, ParentOk, MakingOk, Moved;
    BaseShape(s);
    MakeFacts(s, t, p, k);
    assert MakingOk(s, q, s.pc[q]);
    if q != p {
      if s.pc[p].ForkLink? {
        OutsideScan(s, q);
      }
      MakingElse(s, t, p, k, q);
    }
  }

  /** What the step changes: slot k, and where p is. */
  lemma MakeFacts(s: Sys, t: Sys, p: int, k: int)
    requires Makes(s, t, p, k)
    ensures Shape(s) && Shape(t) && |t.st| == |s.st| && IsProc(s, p) && t.maker == s.maker && s.maker[k] == p && p != k
    ensures MakingOk(t, p, t.pc[p]) && (forall q :: IsProc(s, q) && q != p ==> t.pc[q] == s.pc[q])
    ensures (forall j :: IsProc(s, j) && j != k ==> t.st[j] == s.st[j] && t.parent[j] == s.parent[j]) && s.pc[k].Fresh?
    ensures if s.pc[p].ForkLink? then s.wl == Free && t.parent[k] == p else t.parent == s.parent
  {
    hide LocksW, LocksS, LocksP, Cpus, ParentOk, PlaceOk;
    assert MakingOk(s, p, s.pc[p]);
    FreshNotWaking(s, k);
  }

  /** While wait_lock is free, nobody looks at children. */
  lemma OutsideScan(s: Sys, q: int)
    requires Base(s) && IsProc(s, q) && s.wl == Free
    ensures !s.pc[q].WaitScan? && !(s.pc[q].Wake? && s.pc[q].after.AfterParent?)
  {
    hide LocksS, LocksP, Cpus, States;
    assert s.wl == Proc(q) <==> HoldsW(s.pc[q]);
  }

  lemma MakingElse(s: Sys, t: Sys, p: int, k: int, q: int)
    requires Shape(s) && Shape(t) && |t.st| == |s.st| && IsProc(s, p) && IsProc(s, k) && IsProc(s, q) && q != p && t.pc[q] == s.pc[q]
    requires t.maker == s.maker && s.maker[k] == p && MakingOk(s, q, s.pc[q]) && s.pc[k].Fresh?
    requires forall j :: IsProc(s, j) && j != k ==> t.st[j] == s.st[j] && t.parent[j] == s.parent[j]
    requires t.parent == s.parent || !s.pc[q].WaitScan?
    ensures MakingOk(t, q, t.pc[q])
  {
  }

  /** A slot being made is not in exit. */
  lemma FreshNotWaking(s: Sys, k: int)
    requires Base(s) && IsProc(s, k)
    ensures s.st[k] == USED ==> s.pc[k].Fresh?
  {
    hide LocksW, LocksS, LocksP, Cpus, PlaceOk;
    if s.st[k] == USED {
      SlotFresh(s, k);
    }
  }
}
