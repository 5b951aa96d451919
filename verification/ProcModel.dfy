/** Processes, their locks and the scheduler (kernel/proc.c, kernel/sleeplock.c) as a
    transition system: one step is one acquire, one release, or the work in between that the
    lock protects. Process 0 is init. */
module ProcModel {
  datatype PState = UNUSED | USED | SLEEPING | RUNNABLE | RUNNING | ZOMBIE

  /** Who holds a spinlock: nobody, the kernel thread of a process, or a CPU's scheduler. */
  datatype Owner = Free | Proc(p: int) | Sched(c: int)

  /** What a process sleeps on: nothing, a sleep-lock, or a process. */
  datatype Chan = None | OnLock(l: int) | OnProc(p: int)

  /** Where wakeup returns to. */
  datatype After = AfterRel(l: int) | AfterReparent(k: int) | AfterParent

  /** Where a thread goes on that the timer interrupted while it held no lock. */
  datatype Rest = ToRun | ToForkScan(k: int) | ToForkLink(k: int) | ToForkReady(k: int) | ToSleepAgain(on: Chan)

  /** Where the kernel thread of a process is. */
  datatype Pc =
    | Fresh
    | Run
    | YieldLocked(rest: Rest) | YieldBack(rest: Rest)
    | AcqTest(l: int) | AcqDone(l: int)
    | SleepStart(on: Chan) | SleepBoth(on: Chan) | SleepOnly(on: Chan) | SleepBack(on: Chan) | SleepAgain(on: Chan)
    | RelOpen(l: int) | Wake(on: Chan, k: int, has: bool, after: After) | RelClose(l: int)
    | ExitReparent(k: int) | ExitLock | ExitMark | ExitUnlock | ExitSwitch | Dead
    | WaitScan(k: int, has: bool, kids: bool) | WaitFreed(k: int) | WaitKill(has: bool) | WaitOut
    | ForkScan(k: int, has: bool) | ForkUsed(k: int) | ForkLink(k: int) | ForkLinked(k: int) | ForkReady(k: int) | ForkSet(k: int)
    | KillLocked(k: int)

  /** What a CPU does: look for a process, look at p, run p, or take p back. */
  datatype Cpu = Idle | Looking(p: int) | Running(p: int) | Back(p: int)

  datatype Reap = Reap(pid: int, reaper: int)

  /** on[p]: the CPU that runs p, or -1. held[p]: the sleep-locks p holds. maker[k]: who made
      slot k. reaps: the zombies reaped so far. */
  datatype Sys = Sys(st: seq<PState>, chan: seq<Chan>, parent: seq<int>, killed: seq<bool>, pid: seq<int>, pc: seq<Pc>,
                     on: seq<int>, held: seq<set<int>>, maker: seq<int>,
                     cpu: seq<Cpu>, pl: seq<Owner>, wl: Owner, sl: seq<Owner>, locked: seq<bool>, holder: seq<int>,
                     nextpid: int, reaps: seq<Reap>)

  predicate Shape(s: Sys) {
    && 0 < |s.st| == |s.chan| == |s.parent| == |s.killed| == |s.pid| == |s.pc| == |s.on| == |s.held| == |s.maker| == |s.pl|
    && |s.sl| == |s.locked| == |s.holder|
  }

  predicate IsProc(s: Sys, p: int) {
    0 <= p < |s.st|
  }

  predicate IsLock(s: Sys, l: int) {
    0 <= l < |s.sl|
  }

  predicate IsCpu(s: Sys, c: int) {
    0 <= c < |s.cpu|
  }

  function Goto(s: Sys, p: int, pc: Pc): Sys
    requires Shape(s) && IsProc(s, p)
  {
    s.(pc := s.pc[p := pc])
  }

  function SetPl(s: Sys, k: int, o: Owner): Sys
    requires Shape(s) && IsProc(s, k)
  {
    s.(pl := s.pl[k := o])
  }

  function SetSt(s: Sys, k: int, v: PState): Sys
    requires Shape(s) && IsProc(s, k)
  {
    s.(st := s.st[k := v])
  }

  /** What a step does to the spinlocks: acquire or release wait_lock, the lock inside a
      sleep-lock, or the lock of a process. */
  datatype Event = Nop | GetW | PutW | GetS(l: int) | PutS(l: int) | GetP(k: int) | PutP(k: int)

  /** An acquire waits until the lock is free. */
  predicate Ready(s: Sys, e: Event)
    requires Shape(s)
  {
    match e
    case Nop => true
    case GetW => s.wl == Free
    case PutW => true
    case GetS(l) => IsLock(s, l) && s.sl[l] == Free
    case PutS(l) => IsLock(s, l)
    case GetP(k) => IsProc(s, k) && s.pl[k] == Free
    case PutP(k) => IsProc(s, k)
  }

  function Take(s: Sys, p: int, e: Event): Sys
    requires Shape(s) && Ready(s, e)
  {
    match e
    case Nop => s
    case GetW => s.(wl := Proc(p))
    case PutW => s.(wl := Free)
    case GetS(l) => s.(sl := s.sl[l := Proc(p)])
    case PutS(l) => s.(sl := s.sl[l := Free])
    case GetP(k) => s.(pl := s.pl[k := Proc(p)])
    case PutP(k) => s.(pl := s.pl[k := Free])
  }

  /** Thread p of u takes or drops a lock and goes on at pc. */
  ghost predicate Moved(u: Sys, t: Sys, p: int, e: Event, pc: Pc)
    requires Shape(u) && IsProc(u, p)
  {
    Ready(u, e) && t == Goto(Take(u, p, e), p, pc)
  }

  /** The lock a sleeper gives up while it sleeps. */
  function GetSleep(on: Chan): Event {
    match on
    case None => Nop
    case OnLock(l) => GetS(l)
    case OnProc(_) => GetW
  }

  function PutSleep(on: Chan): Event {
    match on
    case None => Nop
    case OnLock(l) => PutS(l)
    case OnProc(_) => PutW
  }

  /** Process p leaves its CPU: its lock passes to the CPU's scheduler. */
  function SwitchOut(s: Sys, p: int, pc: Pc): Sys
    requires Shape(s) && IsProc(s, p) && IsCpu(s, s.on[p])
  {
    var c := s.on[p];
    s.(pc := s.pc[p := pc], on := s.on[p := -1], cpu := s.cpu[c := Back(p)], pl := s.pl[p := Sched(c)])
  }

  /** A step: of the scheduler of CPU c, or of the kernel thread of process p. `what` decides
      where the thread has a choice: which call to make next, or how a call turns out. */
  datatype Step = SPick(c: int, k: int) | SSkip(c: int) | SRun(c: int) | SDone(c: int) | Thread(p: int, what: Choice) | Timer(p: int) | Switch(p: int)

  datatype Choice = Acquire(l: int) | Release(l: int) | Exit | Wait | Fork | Kill(k: int) | Fails | Succeeds

  /** Process p is on a CPU. */
  predicate OnCpu(s: Sys, p: int)
    requires Shape(s)
  {
    IsProc(s, p) && IsCpu(s, s.on[p])
  }

  // ---- The scheduler ----

  ghost predicate SchedStep(s: Sys, t: Sys, step: Step)
    requires Shape(s)
  {
    match step
    case SPick(c, k) => IsCpu(s, c) && IsProc(s, k) && s.cpu[c] == Idle && s.pl[k] == Free
                        && t == SetPl(s, k, Sched(c)).(cpu := s.cpu[c := Looking(k)])
    case SSkip(c) => IsCpu(s, c) && s.cpu[c].Looking? && IsProc(s, s.cpu[c].p) && s.st[s.cpu[c].p] != RUNNABLE
                     && t == SetPl(s, s.cpu[c].p, Free).(cpu := s.cpu[c := Idle])
    case SRun(c) => IsCpu(s, c) && s.cpu[c].Looking? && IsProc(s, s.cpu[c].p) && s.st[s.cpu[c].p] == RUNNABLE
                    && t == Dispatch(s, c, s.cpu[c].p)
    case SDone(c) => IsCpu(s, c) && s.cpu[c].Back? && IsProc(s, s.cpu[c].p)
                     && t == SetPl(s, s.cpu[c].p, Free).(cpu := s.cpu[c := Idle])
    case _ => false
  }

  /** The scheduler of CPU c gives the CPU, and the lock of p, to p. */
  function Dispatch(s: Sys, c: int, p: int): Sys
    requires Shape(s) && IsCpu(s, c) && IsProc(s, p)
  {
    s.(st := s.st[p := RUNNING], on := s.on[p := c], cpu := s.cpu[c := Running(p)], pl := s.pl[p := Proc(p)])
  }

  /** yield, sleep and exit call sched, holding only the process's own lock. */
  ghost predicate SwitchStep(s: Sys, t: Sys, p: int)
    requires Shape(s)
  {
    OnCpu(s, p)
    && match s.pc[p]
       case YieldLocked(rest) => t == SetSt(SwitchOut(s, p, YieldBack(rest)), p, RUNNABLE)
       case SleepOnly(on) => t == SetSt(SwitchOut(s, p, SleepBack(on)), p, SLEEPING).(chan := s.chan[p := on])
       case ExitSwitch => t == SwitchOut(s, p, Dead)
       case _ => false
  }

  // ---- Kernel threads ----

  /** What a thread does next: whether it can, how it changes the data, and where it goes. */
  datatype Effect = Effect(can: bool, data: Sys, ev: Event, dest: Pc)

  function Go(data: Sys, ev: Event, dest: Pc): Effect {
    Effect(true, data, ev, dest)
  }

  function Stop(s: Sys): Effect {
    Effect(false, s, Nop, Run)
  }

  /** The timer interrupts a thread that holds no lock, in user code or in the kernel: it yields. */
  function Preempt(s: Sys, p: int): Effect
    requires Shape(s) && IsProc(s, p)
  {
    match s.pc[p]
    case Run => Go(s, GetP(p), YieldLocked(ToRun))
    case ForkScan(k, has) => if has then Stop(s) else Go(s, GetP(p), YieldLocked(ToForkScan(k)))
    case ForkLink(k) => Go(s, GetP(p), YieldLocked(ToForkLink(k)))
    case ForkReady(k) => Go(s, GetP(p), YieldLocked(ToForkReady(k)))
    case SleepAgain(on) => Go(s, GetP(p), YieldLocked(ToSleepAgain(on)))
    case _ => Stop(s)
  }

  function Resume(rest: Rest): Pc {
    match rest
    case ToRun => Run
    case ToForkScan(k) => ForkScan(k, false)
    case ToForkLink(k) => ForkLink(k)
    case ToForkReady(k) => ForkReady(k)
    case ToSleepAgain(on) => SleepAgain(on)
  }

  /** A call into the kernel. A process releases only sleep-locks it holds, exits without any,
      and init does not exit. */
  function Begin(s: Sys, p: int, what: Choice): Effect
    requires Shape(s) && IsProc(s, p)
  {
    match what
    case Acquire(l) => Go(s, GetS(l), AcqTest(l))
    case Release(l) => if l in s.held[p] then Go(s, GetS(l), RelOpen(l)) else Stop(s)
    case Exit => if p != 0 && s.held[p] == {} then Go(s, GetW, ExitReparent(0)) else Stop(s)
    case Wait => Go(s, GetW, WaitScan(0, false, false))
    case Fork => Go(s, Nop, ForkScan(0, false))
    case Kill(k) => Go(s, GetP(k), KillLocked(k))
    case _ => Stop(s)
  }

  function DoLock(s: Sys, p: int): Effect
    requires Shape(s) && IsProc(s, p)
  {
    match s.pc[p]
    case AcqTest(l) =>
      if !IsLock(s, l) then Stop(s)
      else if s.locked[l] then Go(s, Nop, SleepStart(OnLock(l)))
      else Go(Locked(s, p, l), Nop, AcqDone(l))
    case AcqDone(l) => Go(s, PutS(l), Run)
    case RelOpen(l) => if IsLock(s, l) then Go(Unlocked(s, p, l), Nop, Wake(OnLock(l), 0, false, AfterRel(l))) else Stop(s)
    case RelClose(l) => Go(s, PutS(l), Run)
    case _ => Stop(s)
  }

  function Locked(s: Sys, p: int, l: int): Sys
    requires Shape(s) && IsProc(s, p) && IsLock(s, l)
  {
    s.(locked := s.locked[l := true], holder := s.holder[l := p], held := s.held[p := s.held[p] + {l}])
  }

  function Unlocked(s: Sys, p: int, l: int): Sys
    requires Shape(s) && IsProc(s, p) && IsLock(s, l)
  {
    s.(locked := s.locked[l := false], held := s.held[p := s.held[p] - {l}])
  }

  /** sleep, and coming back from the scheduler. */
  function DoSleep(s: Sys, p: int): Effect
    requires Shape(s) && IsProc(s, p)
  {
    match s.pc[p]
    case Fresh => Go(s, PutP(p), Run)
    case YieldBack(rest) => Go(s, PutP(p), Resume(rest))
    case SleepStart(on) => Go(s, GetP(p), SleepBoth(on))
    case SleepBoth(on) => Go(s, PutSleep(on), SleepOnly(on))
    case SleepBack(on) => Go(s.(chan := s.chan[p := None]), PutP(p), SleepAgain(on))
    case SleepAgain(on) => Go(s, GetSleep(on), Again(on))
    case _ => Stop(s)
  }

  /** Where a sleeper goes on when it has its lock again. */
  function Again(on: Chan): Pc {
    match on
    case None => Run
    case OnLock(l) => AcqTest(l)
    case OnProc(_) => WaitScan(0, false, false)
  }

  function AfterWake(a: After): Pc {
    match a
    case AfterRel(l) => RelClose(l)
    case AfterReparent(k) => ExitReparent(k + 1)
    case AfterParent => ExitLock
  }

  /** A sleeper becomes runnable. */
  function Woken(s: Sys, k: int): Sys
    requires Shape(s) && IsProc(s, k)
  {
    if s.st[k] == SLEEPING then SetSt(s, k, RUNNABLE) else s
  }

  /** wakeup passes over the processes one by one; kill wakes its victim. */
  function DoWake(s: Sys, p: int): Effect
    requires Shape(s) && IsProc(s, p)
  {
    match s.pc[p]
    case Wake(on, k, has, after) =>
      if !has then
        if k == p then Go(s, Nop, Wake(on, k + 1, false, after))
        else if k == |s.st| then Go(s, Nop, AfterWake(after))
        else Go(s, GetP(k), Wake(on, k, true, after))
      else if IsProc(s, k) then Go(if s.chan[k] == on then Woken(s, k) else s, PutP(k), Wake(on, k + 1, false, after))
      else Stop(s)
    case KillLocked(k) => if IsProc(s, k) then Go(Woken(s.(killed := s.killed[k := true]), k), PutP(k), Run) else Stop(s)
    case _ => Stop(s)
  }

  /** exit gives its children to init, tells its parent, and becomes a zombie. */
  function DoExit(s: Sys, p: int): Effect
    requires Shape(s) && IsProc(s, p)
  {
    match s.pc[p]
    case ExitReparent(k) =>
      if k == |s.st| then Go(s, Nop, Wake(OnProc(s.parent[p]), 0, false, AfterParent))
      else if !IsProc(s, k) then Stop(s)
      else if s.parent[k] == p then Go(s.(parent := s.parent[k := 0]), Nop, Wake(OnProc(0), 0, false, AfterReparent(k)))
      else Go(s, Nop, ExitReparent(k + 1))
    case ExitLock => Go(s, GetP(p), ExitMark)
    case ExitMark => Go(SetSt(s, p, ZOMBIE), Nop, ExitUnlock)
    case ExitUnlock => Go(s, PutW, ExitSwitch)
    case _ => Stop(s)
  }

  /** freeproc, on a zombie: the slot is unused again. */
  function Freed(s: Sys, p: int, k: int): Sys
    requires Shape(s) && IsProc(s, p) && IsProc(s, k)
  {
    s.(st := s.st[k := UNUSED], parent := s.parent[k := -1], chan := s.chan[k := None], killed := s.killed[k := false],
       pid := s.pid[k := 0], pc := s.pc[k := Fresh], reaps := s.reaps + [Reap(s.pid[k], p)])
  }

  /** wait scans its children; it fails to copy the status out, reaps, or goes on. */
  function DoWait(s: Sys, p: int, what: Choice): Effect
    requires Shape(s) && IsProc(s, p)
  {
    match s.pc[p]
    case WaitScan(k, has, kids) =>
      if !has then
        if k == |s.st| then Go(s, Nop, if kids then WaitKill(false) else WaitOut)
        else if !IsProc(s, k) then Stop(s)
        else if s.parent[k] == p then Go(s, GetP(k), WaitScan(k, true, kids))
        else Go(s, Nop, WaitScan(k + 1, false, kids))
      else if !IsProc(s, k) then Stop(s)
      else if s.st[k] != ZOMBIE then Go(s, PutP(k), WaitScan(k + 1, false, true))
      else if what == Fails then Go(s, PutP(k), WaitOut)
      else Go(Freed(s, p, k), Nop, WaitFreed(k))
    case WaitFreed(k) => Go(s, PutP(k), WaitOut)
    case WaitKill(has) =>
      if !has then Go(s, GetP(p), WaitKill(true))
      else Go(s, PutP(p), if s.killed[p] then WaitOut else SleepStart(OnProc(p)))
    case WaitOut => Go(s, PutW, Run)
    case _ => Stop(s)
  }

  /** allocproc takes slot k for p. */
  function Allocated(s: Sys, p: int, k: int): Sys
    requires Shape(s) && IsProc(s, k)
  {
    SetSt(s, k, USED).(pid := s.pid[k := s.nextpid], nextpid := s.nextpid + 1, maker := s.maker[k := p])
  }

  function Unallocated(s: Sys, k: int): Sys
    requires Shape(s) && IsProc(s, k)
  {
    SetSt(s, k, UNUSED).(pid := s.pid[k := 0], killed := s.killed[k := false])
  }

  /** fork finds an unused slot, fills it (or fails to), links it to its parent and lets it run. */
  function DoFork(s: Sys, p: int, what: Choice): Effect
    requires Shape(s) && IsProc(s, p)
  {
    match s.pc[p]
    case ForkScan(k, has) =>
      if !has then if k == |s.st| then Go(s, Nop, Run) else Go(s, GetP(k), ForkScan(k, true))
      else if !IsProc(s, k) then Stop(s)
      else if s.st[k] == UNUSED then Go(Allocated(s, p, k), Nop, ForkUsed(k))
      else Go(s, PutP(k), ForkScan(k + 1, false))
    case ForkUsed(k) =>
      if !IsProc(s, k) then Stop(s)
      else if what == Fails then Go(Unallocated(s, k), PutP(k), Run)
      else Go(s, PutP(k), ForkLink(k))
    case ForkLink(k) => if IsProc(s, k) then Go(s.(parent := s.parent[k := p]), GetW, ForkLinked(k)) else Stop(s)
    case ForkLinked(k) => Go(s, PutW, ForkReady(k))
    case ForkReady(k) => if IsProc(s, k) then Go(SetSt(s, k, RUNNABLE), GetP(k), ForkSet(k)) else Stop(s)
    case ForkSet(k) => Go(s, PutP(k), Run)
    case _ => Stop(s)
  }

  /** The kinds of place in the code. */
  datatype Kind = Calls | Locks | Sleeps | Wakes | Exits | Waits | Forks

  function KindOf(pc: Pc): Kind {
    match pc
    case Run => Calls
    case AcqTest(_) => Locks
    case AcqDone(_) => Locks
    case RelOpen(_) => Locks
    case RelClose(_) => Locks
    case Wake(_, _, _, _) => Wakes
    case KillLocked(_) => Wakes
    case ExitReparent(_) => Exits
    case ExitLock => Exits
    case ExitMark => Exits
    case ExitUnlock => Exits
    case ExitSwitch => Exits
    case Dead => Exits
    case WaitScan(_, _, _) => Waits
    case WaitFreed(_) => Waits
    case WaitKill(_) => Waits
    case WaitOut => Waits
    case ForkScan(_, _) => Forks
    case ForkUsed(_) => Forks
    case ForkLink(_) => Forks
    case ForkLinked(_) => Forks
    case ForkReady(_) => Forks
    case ForkSet(_) => Forks
    case _ => Sleeps
  }

  function Do(s: Sys, p: int, what: Choice): Effect
    requires Shape(s) && IsProc(s, p)
  {
    match KindOf(s.pc[p])
    case Calls => Begin(s, p, what)
    case Locks => DoLock(s, p)
    case Sleeps => DoSleep(s, p)
    case Wakes => DoWake(s, p)
    case Exits => DoExit(s, p)
    case Waits => DoWait(s, p, what)
    case Forks => DoFork(s, p, what)
  }

  /** Thread p, on its CPU, takes its next step. */
  ghost predicate ThreadStep(s: Sys, t: Sys, p: int, what: Choice)
    requires Shape(s)
  {
    OnCpu(s, p) && Acts(t, p, Do(s, p, what))
  }

  ghost predicate Able(f: Effect) {
    f.can && Shape(f.data) && Ready(f.data, f.ev)
  }

  ghost predicate Acts(t: Sys, p: int, f: Effect) {
    f.can && Shape(f.data) && IsProc(f.data, p) && Moved(f.data, t, p, f.ev, f.dest)
  }

  ghost predicate Next(s: Sys, t: Sys, step: Step)
    requires Shape(s)
  {
    match step
    case Thread(p, what) => ThreadStep(s, t, p, what)
    case Timer(p) => OnCpu(s, p) && Acts(t, p, Preempt(s, p))
    case Switch(p) => SwitchStep(s, t, p)
    case _ => SchedStep(s, t, step)
  }

  /** After boot: only init, ready to run; no lock is held. */
  ghost predicate Boot(s: Sys) {
    && Shape(s) && |s.cpu| > 0
    && (forall p :: IsProc(s, p) ==> s.st[p] == (if p == 0 then RUNNABLE else UNUSED) && s.chan[p] == None && s.parent[p] == -1
                                      && s.pc[p] == Fresh && s.on[p] == -1 && s.held[p] == {} && s.pl[p] == Free && s.pid[p] == (if p == 0 then 1 else 0))
    && (forall c :: IsCpu(s, c) ==> s.cpu[c] == Idle)
    && (forall l :: IsLock(s, l) ==> s.sl[l] == Free && !s.locked[l])
    && s.wl == Free && s.nextpid == 2 && s.reaps == []
  }
}
