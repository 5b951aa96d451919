/** Every run of the process system: the invariant and what follows from it. */
module ProcRuns {
  import opened ProcModel
  import opened ProcInv
  import opened ProcSleep
  import opened ProcFamily
  import opened ProcWait
  import opened ProcPids
  import opened ProcSched

  ghost predicate Inv(s: Sys) {
    Base(s) && Sleepers(s) && Holders(s) && Family(s) && WaitsOk(s) && Pids(s)
  }

  // ---- Threads ----

  /** The step of thread p with effect f. */
  ghost predicate Steps(s: Sys, t: Sys, p: int, f: Effect) {
    Inv(s) && OnCpu(s, p) && Sound(s, p, f) && Moved(f.data, t, p, f.ev, f.dest)
  }

  /** No pid changes. */
  predicate Steady(s: Sys, f: Effect) {
    f.data.pid == s.pid && f.data.nextpid == s.nextpid && f.data.reaps == s.reaps
  }

  /** The parts of the invariant every step keeps in the same way. */
  lemma StepKeeps(s: Sys, t: Sys, p: int, f: Effect)
    requires Steps(s, t, p, f) && KeepsSleep(s, p, f)
    requires f.data.held == s.held && f.data.locked == s.locked && f.data.holder == s.holder
    requires f.dest.RelOpen? ==> f.dest.l in s.held[p]
    ensures Base(t) && Sleepers(t) && Holders(t)
  {
    hide Base, Sleepers, Holders, Family, WaitsOk, Pids, KeepsSleep, Moved, Fits, Changed, StateOk, PlaceOk;
    BaseShape(s);
    MoveKeeps(s, t, p, f);
    SleepersMove(s, t, p, f);
    HoldersMove(s, t, p, f);
  }

  lemma QuietKeeps(s: Sys, t: Sys, p: int, f: Effect)
    requires Steps(s, t, p, f) && KeepsFamily(s, p, f) && KeepsWaits(s, p, f) && Steady(s, f)
    ensures Shape(t) && Family(t) && WaitsOk(t) && Pids(t)
  {
    hide Base, Sleepers, Holders, Family, WaitsOk, Pids, KeepsWaits, Fits, Changed, StateOk, PlaceOk, MayHave, MakingOk;
    BaseShape(s);
    FamilyMove(s, t, p, f);
    WaitsMove(s, t, p, f);
    forall q | IsProc(s, q) ensures t.st[q] == UNUSED <==> s.st[q] == UNUSED {
      assert Class(f.data.st[q]) == Class(s.st[q]);
    }
    PidsSame(s, t);
  }

  lemma CallKeeps(s: Sys, t: Sys, p: int, what: Choice)
    requires Inv(s) && OnCpu(s, p) && KindOf(s.pc[p]) == Calls
    requires Acts(t, p, Begin(s, p, what))
    ensures Inv(t)
  {
    hide Base, Sleepers, Holders, Family, WaitsOk, Pids, Sound, KeepsSleep, KeepsFamily, KeepsWaits;
    BaseShape(s);
    var f := Begin(s, p, what);
    CallSound(s, p, what);
    CallSleep(s, p, what);
    CallFamily(s, p, what);
    CallWaits(s, p, what);
    StepKeeps(s, t, p, f);
    QuietKeeps(s, t, p, f);
  }

  lemma TimerKeeps(s: Sys, t: Sys, p: int)
    requires Inv(s) && OnCpu(s, p) && Acts(t, p, Preempt(s, p))
    ensures Inv(t)
  {
    hide Base, Sleepers, Holders, Family, WaitsOk, Pids, Sound, KeepsSleep, KeepsFamily, KeepsWaits;
    BaseShape(s);
    var f := Preempt(s, p);
    TimerSound(s, p);
    TimerSleep(s, p);
    TimerFamily(s, p);
    TimerWaits(s, p);
    StepKeeps(s, t, p, f);
    QuietKeeps(s, t, p, f);
  }

  lemma SleepKeeps(s: Sys, t: Sys, p: int)
    requires Inv(s) && OnCpu(s, p) && KindOf(s.pc[p]) == Sleeps
    requires Acts(t, p, DoSleep(s, p))
    ensures Inv(t)
  {
    hide Base, Sleepers, Holders, Family, Pids, Sound, KeepsSleep, KeepsFamily, KeepsWaits, Waits1, Waits2, Waits3;
    BaseShape(s);
    var f := DoSleep(s, p);
    SleepSound(s, p);
    SleepSleep(s, p);
    SleepFamily(s, p);
    SleepWaits(s, p);
    StepKeeps(s, t, p, f);
    QuietKeeps(s, t, p, f);
  }

  lemma WakeKeeps(s: Sys, t: Sys, p: int)
    requires Inv(s) && OnCpu(s, p) && KindOf(s.pc[p]) == Wakes
    requires Acts(t, p, DoWake(s, p))
    ensures Inv(t)
  {
    hide Base, Sleepers, Holders, Family, Pids, Sound, KeepsSleep, KeepsFamily, KeepsWaits, Waits1, Waits2, Waits3;
    BaseShape(s);
    var f := DoWake(s, p);
    WakeSound(s, p);
    WakeSleep(s, p);
    WakeFamily(s, p);
    WakeWaits(s, p);
    StepKeeps(s, t, p, f);
    QuietKeeps(s, t, p, f);
  }

  lemma LockKeeps(s: Sys, t: Sys, p: int)
    requires Inv(s) && OnCpu(s, p) && KindOf(s.pc[p]) == Locks
    requires Acts(t, p, DoLock(s, p))
    ensures Inv(t)
  {
    hide Base, Sleepers, Holders, Family, WaitsOk, Pids, Sound, KeepsSleep, KeepsFamily, KeepsWaits;
    BaseShape(s);
    var f := DoLock(s, p);
    LockSound(s, p);
    LockFamily(s, p);
    LockWaits(s, p);
    QuietKeeps(s, t, p, f);
    MoveKeeps(s, t, p, f);
    if s.pc[p].AcqTest? && !s.locked[s.pc[p].l] {
      AcquireSleepers(s, t, p, s.pc[p].l);
      AcquireHolders(s, t, p, s.pc[p].l);
    } else if s.pc[p].RelOpen? {
      ReleaseSleepers(s, t, p, s.pc[p].l);
      ReleaseHolders(s, t, p, s.pc[p].l);
    } else {
      LockSleep(s, p);
      StepKeeps(s, t, p, f);
    }
  }

  lemma LockSleep(s: Sys, p: int)
    requires Base(s) && OnCpu(s, p) && KindOf(s.pc[p]) == Locks && DoLock(s, p).can && DoLock(s, p).data == s
    ensures KeepsSleep(s, p, DoLock(s, p))
  {
    hide LocksW, LocksS, LocksP, Cpus, States;
  }

  lemma HasParent(s: Sys, p: int)
    requires Base(s) && Family(s) && OnCpu(s, p) && s.pc[p].ExitReparent?
    ensures IsProc(s, s.parent[p]) && s.parent[p] != p
  {
    hide LocksW, LocksS, LocksP, Cpus;
    Here(s, p);
    assert ParentOk(s, p);
  }

  lemma ExitKeepsInv(s: Sys, t: Sys, p: int)
    requires Inv(s) && OnCpu(s, p) && KindOf(s.pc[p]) == Exits
    requires Acts(t, p, DoExit(s, p))
    ensures Inv(t)
  {
    hide Base, Sleepers, Holders, Family, Pids, Sound, KeepsSleep, KeepsFamily, KeepsWaits, Waits1, Waits2, Waits3;
    BaseShape(s);
    var f := DoExit(s, p);
    if s.pc[p].ExitReparent? {
      HasParent(s, p);
    }
    ExitSound(s, p);
    ExitSleep(s, p);
    StepKeeps(s, t, p, f);
    if s.pc[p].ExitMark? {
      ExitKeeps(s, t, p);
      LeaveWaits1(s, t, p);
      LeaveWaits2(s, t, p);
      LeaveWaits3(s, t, p);
      ExitPids(s, t, p);
    } else if s.pc[p].ExitReparent? && IsProc(s, s.pc[p].k) && s.parent[s.pc[p].k] == p {
      var k := s.pc[p].k;
      GiveKeeps(s, t, p, k);
      GiveWaits1(s, t, p, k);
      GiveWaits2(s, t, p, k);
      GiveWaits3(s, t, p, k);
      PidsSame(s, t);
    } else {
      ExitFamily(s, p);
      ExitWaits(s, p);
      QuietKeeps(s, t, p, f);
    }
  }

  lemma ExitPids(s: Sys, t: Sys, p: int)
    requires Leaves(s, t, p) && Pids(s)
    ensures Shape(t) && Pids(t)
  {
    hide LocksW, LocksS, LocksP, Cpus, Family, PidOk, PlaceOk;
    Here(s, p);
    PidsSame(s, t);
  }

  lemma WaitKeeps(s: Sys, t: Sys, p: int, what: Choice)
    requires Inv(s) && OnCpu(s, p) && KindOf(s.pc[p]) == Waits
    requires Acts(t, p, DoWait(s, p, what))
    ensures Inv(t)
  {
    hide Base, Sleepers, Holders, Family, Pids, Sound, KeepsSleep, KeepsFamily, KeepsWaits, Waits1, Waits2, Waits3;
    BaseShape(s);
    var f := DoWait(s, p, what);
    WaitSound(s, p, what);
    WaitSleep(s, p, what);
    StepKeeps(s, t, p, f);
    if s.pc[p].WaitScan? && s.pc[p].has && s.st[s.pc[p].k] == ZOMBIE && what != Fails {
      var k := s.pc[p].k;
      ReapKeeps(s, t, p, k);
      ReapWaits1(s, t, p, k);
      ReapWaits23(s, t, p, k);
      ReapPids(s, t, p, k);
    } else {
      WaitFamily(s, p, what);
      WaitWaits(s, p, what);
      QuietKeeps(s, t, p, f);
    }
  }

  lemma ForkKeeps(s: Sys, t: Sys, p: int, what: Choice)
    requires Inv(s) && OnCpu(s, p) && KindOf(s.pc[p]) == Forks
    requires Acts(t, p, DoFork(s, p, what))
    ensures Inv(t)
  {
    hide Base, Sleepers, Holders, Family, Pids, Sound, KeepsSleep, KeepsFamily, KeepsWaits, Waits1, Waits2, Waits3;
    BaseShape(s);
    var f := DoFork(s, p, what);
    if s.pc[p].ForkUsed? || s.pc[p].ForkLink? || s.pc[p].ForkReady? {
      SlotFacts(s, p, s.pc[p].k);
    }
    ForkSound(s, p, what);
    ForkSleep(s, p, what);
    StepKeeps(s, t, p, f);
    if f.data == s {
      ForkFamily(s, p, what);
      ForkWaits(s, p, what);
      QuietKeeps(s, t, p, f);
    } else {
      ForkData(s, t, p, what);
    }
  }

  /** The steps of fork that change data. */
  lemma ForkData(s: Sys, t: Sys, p: int, what: Choice)
    requires Inv(s) && OnCpu(s, p) && KindOf(s.pc[p]) == Forks && Acts(t, p, DoFork(s, p, what)) && DoFork(s, p, what).data != s
    requires Sound(s, p, DoFork(s, p, what))
    ensures Shape(t) && Family(t) && WaitsOk(t) && Pids(t)
  {
    hide Base, Sleepers, Holders, Family, Pids, KeepsWaits, Waits1, Waits2, Waits3, Fits, Changed, StateOk, PlaceOk;
    BaseShape(s);
    var f, k := DoFork(s, p, what), s.pc[p].k;
    if s.pc[p].ForkScan? {
      TakeKeeps(s, t, p, k);
      SlotWaits(s, p, f, k);
      WaitsMove(s, t, p, f);
      TakePids(s, t, p, k);
    } else if s.pc[p].ForkLink? {
      MakeKeeps(s, t, p, k);
      LinkWaits1(s, t, p, k);
      LinkWaits23(s, t, p, k);
      PidsSame(s, t);
    } else {
      SlotFacts(s, p, k);
      MakeKeeps(s, t, p, k);
      SlotWaits(s, p, f, k);
      WaitsMove(s, t, p, f);
      if s.pc[p].ForkUsed? {
        FailPids(s, t, p, k);
      } else {
        PidsSame(s, t);
      }
    }
  }

  lemma ThreadKeeps(s: Sys, t: Sys, p: int, what: Choice)
    requires Inv(s) && ThreadStep(s, t, p, what)
    ensures Inv(t)
  {
    hide Base, Sleepers, Holders, Family, WaitsOk, Pids, Acts, Begin, DoLock, DoSleep, DoWake, DoExit, DoWait, DoFork;
    BaseShape(s);
    match KindOf(s.pc[p])
    case Calls => CallKeeps(s, t, p, what);
    case Locks => LockKeeps(s, t, p);
    case Sleeps => SleepKeeps(s, t, p);
    case Wakes => WakeKeeps(s, t, p);
    case Exits => ExitKeepsInv(s, t, p);
    case Waits => WaitKeeps(s, t, p, what);
    case Forks => ForkKeeps(s, t, p, what);
  }

  // ---- CPUs ----

  lemma PartsKeep(s: Sys, t: Sys)
    requires Inv(s) && Base(t) && SameParts(s, t)
    ensures Inv(t)
  {
    hide Base, Sleepers, Holders, Family, WaitsOk, Pids, SameParts;
    PartsShape(s, t);
    PartsSleepers(s, t);
    PartsHolders(s, t);
    PartsFamily(s, t);
    PartsWaits(s, t);
    PartsPids(s, t);
  }

  lemma PartsShape(s: Sys, t: Sys)
    requires SameParts(s, t)
    ensures Shape(s) && Shape(t)
  {
  }

  lemma SchedKeeps(s: Sys, t: Sys, step: Step)
    requires Base(s) && SchedStep(s, t, step)
    ensures Base(t) && SameParts(s, t)
  {
    hide LocksW, LocksS, LocksP, States, MayHave, Dozes;
    var c := step.c;
    assert CpuOk(s, c);
    match step
    case SPick(_, k) =>
      IdleCpus(s, t, c, k);
      IdleBase(s, t, c, k);
    case SSkip(_) =>
      IdleCpus(s, t, c, s.cpu[c].p);
      IdleBase(s, t, c, s.cpu[c].p);
    case SDone(_) =>
      IdleCpus(s, t, c, s.cpu[c].p);
      IdleBase(s, t, c, s.cpu[c].p);
    case SRun(_) =>
      RunBase(s, t, c, s.cpu[c].p);
      RunParts(s, t, c, s.cpu[c].p);
  }

  // ---- Runs ----

  lemma NextKeeps(s: Sys, t: Sys, step: Step)
    requires Inv(s) && Next(s, t, step)
    ensures Inv(t)
  {
    hide Base, Sleepers, Holders, Family, WaitsOk, Pids, ThreadStep, SwitchStep, SchedStep, SameParts, Acts;
    BaseShape(s);
    match step
    case Thread(p, what) => ThreadKeeps(s, t, p, what);
    case Timer(p) => TimerKeeps(s, t, p);
    case Switch(p) =>
      SwitchBase(s, t, p);
      SwitchParts(s, t, p);
      PartsKeep(s, t);
    case _ =>
      SchedKeeps(s, t, step);
      PartsKeep(s, t);
  }

  /** A machine that has just started: init, with n process slots, c CPUs and l sleep-locks. */
  function Booted(n: nat, c: nat, l: nat): Sys
    requires n > 0
  {
    Sys(seq(n, p => if p == 0 then RUNNABLE else UNUSED), seq(n, p => Chan.None), seq(n, p => -1), seq(n, p => false),
        seq(n, p => if p == 0 then 1 else 0), seq(n, p => Fresh), seq(n, p => -1), seq(n, p => {}), seq(n, p => -1),
        seq(c, k => Idle), seq(n, p => Owner.Free), Owner.Free, seq(l, k => Owner.Free), seq(l, k => false), seq(l, k => 0), 2, [])
  }

  /** There are runs: every machine can start. */
  lemma BootRun(n: nat, c: nat, l: nat)
    requires n > 0 && c > 0
    ensures Boot(Booted(n, c, l)) && Run([Booted(n, c, l)], [])
  {
  }

  lemma BootInv(s: Sys)
    requires Boot(s)
    ensures Inv(s)
  {
    forall q | IsProc(s, q) ensures s.st[q] == (if q == 0 then RUNNABLE else UNUSED) && s.pc[q] == Fresh && s.on[q] == -1 {
    }
    forall q | IsProc(s, q) ensures PidOk(s, q) && ParentOk(s, q) {
    }
  }

  /** States from boot on, one step apart. */
  ghost predicate Run(run: seq<Sys>, steps: seq<Step>) {
    && |run| == |steps| + 1 && Boot(run[0])
    && forall i :: 0 <= i < |steps| ==> StepAt(run, steps, i)
  }

  ghost predicate StepAt(run: seq<Sys>, steps: seq<Step>, i: nat)
    requires |run| == |steps| + 1 && i < |steps|
  {
    Shape(run[i]) && Next(run[i], run[i + 1], steps[i])
  }

  lemma {:induction false} RunInv(run: seq<Sys>, steps: seq<Step>, i: nat)
    requires Run(run, steps) && i < |run|
    ensures Inv(run[i])
    decreases i
  {
    hide Inv, Boot, Next;
    if i == 0 {
      BootInv(run[0]);
    } else {
      RunInv(run, steps, i - 1);
      assert StepAt(run, steps, i - 1);
      NextKeeps(run[i - 1], run[i], steps[i - 1]);
    }
  }

  // ---- What holds in every state of every run ----

  /** c->proc: the process that CPU c runs, or has just taken back. */
  predicate Current(x: Cpu, p: int) {
    x == Running(p) || x == Back(p)
  }

  /** A process is current on at most one CPU. */
  lemma OneCpu(run: seq<Sys>, steps: seq<Step>, i: nat, c: int, d: int, p: int)
    requires Run(run, steps) && i < |run| && IsCpu(run[i], c) && IsCpu(run[i], d)
    requires Current(run[i].cpu[c], p) && Current(run[i].cpu[d], p)
    ensures c == d
  {
    hide Run, LocksW, LocksS, LocksP, States, Sleepers, Holders, Family, WaitsOk, Pids;
    RunInv(run, steps, i);
    assert CpuOk(run[i], c) && CpuOk(run[i], d);
  }

  /** At most one process holds a sleep-lock, and then it is locked. */
  lemma SleepLockExclusive(run: seq<Sys>, steps: seq<Step>, i: nat, p: int, q: int, l: int)
    requires Run(run, steps) && i < |run| && Shape(run[i]) && IsProc(run[i], p) && IsProc(run[i], q)
    requires l in run[i].held[p] && l in run[i].held[q]
    ensures p == q && IsLock(run[i], l) && run[i].locked[l]
  {
    hide Run, Base, Sleepers, Family, WaitsOk, Pids;
    RunInv(run, steps, i);
    assert HeldOk(run[i], p, l) && HeldOk(run[i], q, l);
  }

  /** While the spinlock of a sleep-lock is free, a process sleeps on it only if it is locked. */
  lemma NoSleepOnFreeLock(run: seq<Sys>, steps: seq<Step>, i: nat, q: int, l: int)
    requires Run(run, steps) && i < |run| && Shape(run[i]) && IsProc(run[i], q) && IsLock(run[i], l)
    requires run[i].sl[l] == Free && run[i].st[q] == SLEEPING && run[i].chan[q] == OnLock(l)
    ensures run[i].locked[l]
  {
    hide Run, LocksW, LocksS, LocksP, Cpus, PlaceOk, Holders, Family, WaitsOk, Pids;
    RunInv(run, steps, i);
    var s := run[i];
    assert StateOk(s.st[q], s.chan[q], s.pc[q], s.on[q] >= 0);
    assert Dozes(s.st[q], s.pc[q], OnLock(l));
  }

  /** While wait_lock is free, no process sleeps in wait with a zombie child. */
  lemma NoLostExit(run: seq<Sys>, steps: seq<Step>, i: nat, p: int, q: int)
    requires Run(run, steps) && i < |run| && Shape(run[i]) && IsProc(run[i], p) && IsProc(run[i], q)
    requires run[i].wl == Free && run[i].st[p] == SLEEPING && run[i].chan[p] == OnProc(p) && run[i].parent[q] == p
    ensures run[i].st[q] != ZOMBIE
  {
    hide Run, LocksW, LocksS, LocksP, Cpus, PlaceOk, Holders, Family, Sleepers, Pids;
    RunInv(run, steps, i);
    var s := run[i];
    assert StateOk(s.st[p], s.chan[p], s.pc[p], s.on[p] >= 0);
    assert DozesInWait(s.st[p], s.pc[p], p);
    assert Zombie(s, p, q) <==> s.st[q] == ZOMBIE;
  }

  /** A zombie has a parent that is alive and has not begun to exit past it: it will be reaped,
      or given to init. */
  lemma ZombieHasParent(run: seq<Sys>, steps: seq<Step>, i: nat, q: int)
    requires Run(run, steps) && i < |run| && Shape(run[i]) && IsProc(run[i], q) && run[i].st[q] == ZOMBIE
    ensures var r := run[i].parent[q]; IsProc(run[i], r) && r != q && Live(run[i].st[r]) && MayHave(run[i].pc[r], q)
  {
    hide Run, Base, Holders, WaitsOk, Sleepers, Pids, MayHave;
    RunInv(run, steps, i);
    assert ParentOk(run[i], q);
  }

  /** No zombie is reaped twice. */
  lemma ReapedOnce(run: seq<Sys>, steps: seq<Step>, i: nat, a: nat, b: nat)
    requires Run(run, steps) && i < |run| && a < b < |run[i].reaps|
    ensures run[i].reaps[a].pid != run[i].reaps[b].pid
  {
    hide Run, Base, Holders, WaitsOk, Sleepers, Family;
    RunInv(run, steps, i);
  }

  /** p takes its zombie child k off the table. */
  ghost predicate ReapsChild(s: Sys, t: Sys, p: int, k: int) {
    && Shape(s) && Shape(t) && |t.st| == |s.st| && IsProc(s, k)
    && s.parent[k] == p && s.st[k] == ZOMBIE && t.st[k] == UNUSED && t.reaps == s.reaps + [Reap(s.pid[k], p)]
  }

  /** A process is reaped only as a zombie, by its parent. */
  lemma ReapedByParent(s: Sys, t: Sys, p: int, what: Choice) returns (k: int)
    requires Shape(s) && Inv(s) && ThreadStep(s, t, p, what) && t.reaps != s.reaps
    ensures ReapsChild(s, t, p, k)
  {
    hide Base, Holders, WaitsOk, Sleepers, Pids, ParentOk, Begin, DoLock, DoSleep, DoWake, DoExit, DoWait, DoFork, Do;
    assert MakingOk(s, p, s.pc[p]);
    OnlyWaitReaps(s, p, what);
    k := s.pc[p].k;
  }

  lemma OnlyWaitReaps(s: Sys, p: int, what: Choice)
    requires Shape(s) && IsProc(s, p)
    ensures var f := Do(s, p, what);
            f.data.reaps != s.reaps ==>
              && s.pc[p].WaitScan? && s.pc[p].has && IsProc(s, s.pc[p].k) && s.st[s.pc[p].k] == ZOMBIE
              && f == Go(Freed(s, p, s.pc[p].k), Nop, WaitFreed(s.pc[p].k))
  {
  }
}
