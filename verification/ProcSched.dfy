/** The scheduler and the switch to and from it. */
module ProcSched {
  import opened ProcModel
  import opened ProcInv
  import opened ProcSleep
  import opened ProcFamily
  import opened ProcWait
  import opened ProcPids

  /** Only CPUs and the lock of process k change, between free and CPU c. */
  ghost predicate OnlyCpu(s: Sys, t: Sys, c: int, k: int) {
    && Shape(s) && IsCpu(s, c) && IsProc(s, k) && !s.pl[k].Proc? && (t.pl == s.pl[k := Free] || t.pl == s.pl[k := Sched(c)])
    && |t.cpu| == |s.cpu| && t == s.(cpu := t.cpu, pl := t.pl)
  }

  lemma IdleBase(s: Sys, t: Sys, c: int, k: int)
    requires Base(s) && OnlyCpu(s, t, c, k) && Cpus(t)
    ensures Base(t)
  {
    hide HoldsP, HoldsS, HoldsW, StateOk, Cpus;
    forall p | IsProc(t, p) ensures PlaceOk(t, p, t.pc[p]) {
      PlaceSame(s, t, p, t.pc[p]);
    }
  }

  lemma IdleCpus(s: Sys, t: Sys, c: int, k: int)
    requires Base(s) && OnlyCpu(s, t, c, k)
    requires || (s.cpu[c] == Idle && s.pl[k] == Free && t.pl == s.pl[k := Sched(c)] && t.cpu == s.cpu[c := Looking(k)])
             || (AtWork(s.cpu[c], k) && t.pl == s.pl[k := Free] && t.cpu == s.cpu[c := Idle])
    ensures Cpus(t)
  {
    hide LocksW, LocksS, LocksP, States;
    assert CpuOk(s, c);
    forall d | IsCpu(t, d) ensures CpuOk(t, d) {
      assert CpuOk(s, d);
    }
  }

  // ---- Dispatch and switch: the state and place of one process change ----

  /** Process p goes on or off CPU c; its state and place change. */
  ghost predicate Swaps(s: Sys, t: Sys, p: int, c: int) {
    && Shape(s) && Shape(t) && IsProc(s, p) && IsCpu(s, c) && |t.st| == |s.st| && |t.sl| == |s.sl| && |t.cpu| == |s.cpu|
    && t == s.(st := s.st[p := t.st[p]], pc := s.pc[p := t.pc[p]], chan := s.chan[p := t.chan[p]], on := s.on[p := t.on[p]],
               cpu := s.cpu[c := t.cpu[c]], pl := s.pl[p := t.pl[p]])
  }

  /** Thread p gains or loses its own lock and no other. */
  predicate SwapsLock(s: Sys, t: Sys, p: int, q: int)
    requires Shape(s) && Shape(t) && IsProc(s, p) && IsProc(t, p)
  {
    HoldsP(t.pc[p], p, t.on[p] >= 0, q) == (if q == p then t.pl[p] == Proc(p) else HoldsP(s.pc[p], p, s.on[p] >= 0, q))
  }

  lemma SwapLocks(s: Sys, t: Sys, p: int, c: int)
    requires Base(s) && Swaps(s, t, p, c)
    requires HoldsW(t.pc[p]) == HoldsW(s.pc[p]) && (forall l :: HoldsS(t.pc[p], l) == HoldsS(s.pc[p], l))
    requires forall q :: IsProc(s, q) ==> SwapsLock(s, t, p, q)
    requires (s.pl[p] == Sched(c) && t.pl[p] == Proc(p)) || (s.pl[p] == Proc(p) && t.pl[p] == Sched(c))
    ensures LocksW(t) && LocksS(t) && LocksP(t)
  {
    hide HoldsP, HoldsS, HoldsW, StateOk, PlaceOk, Cpus;
    forall q, k | IsProc(t, q) && IsProc(t, k) ensures t.pl[k] == Proc(q) <==> HoldsP(t.pc[q], q, t.on[q] >= 0, k) {
      assert s.pl[k] == Proc(q) <==> HoldsP(s.pc[q], q, s.on[q] >= 0, k);
      assert SwapsLock(s, t, p, k);
    }
    forall q, l | IsProc(t, q) && IsLock(t, l) ensures t.sl[l] == Proc(q) <==> HoldsS(t.pc[q], l) {
      assert s.sl[l] == Proc(q) <==> HoldsS(s.pc[q], l);
    }
    forall q | IsProc(t, q) ensures t.wl == Proc(q) <==> HoldsW(t.pc[q]) {
      assert s.wl == Proc(q) <==> HoldsW(s.pc[q]);
    }
  }

  lemma SwapStates(s: Sys, t: Sys, p: int, c: int)
    requires Base(s) && Swaps(s, t, p, c) && StateOk(t.st[p], t.chan[p], t.pc[p], t.on[p] >= 0) && PlaceOk(s, p, t.pc[p])
    ensures States(t)
  {
    hide HoldsP, HoldsS, HoldsW, StateOk, PlaceOk, Cpus, LocksW, LocksS, LocksP;
    forall q | IsProc(t, q) ensures StateOk(t.st[q], t.chan[q], t.pc[q], t.on[q] >= 0) && PlaceOk(t, q, t.pc[q]) {
      PlaceSame(s, t, q, t.pc[q]);
    }
  }

  lemma SwapCpus(s: Sys, t: Sys, p: int, c: int)
    requires Base(s) && Swaps(s, t, p, c)
    requires || (s.cpu[c] == Looking(p) && s.on[p] == -1 && t.cpu[c] == Running(p) && t.on[p] == c && t.pl[p] == Proc(p))
             || (s.cpu[c] == Running(p) && s.pl[p] == Proc(p) && t.cpu[c] == Back(p) && t.on[p] == -1 && t.pl[p] == Sched(c))
    ensures Cpus(t)
  {
    hide LocksW, LocksS, LocksP, States;
    assert CpuOk(s, c);
    forall d | IsCpu(t, d) ensures CpuOk(t, d) {
      assert CpuOk(s, d);
    }
  }

  /** A runnable process is off every CPU, and stopped where it will hold its own lock. */
  lemma Runnable(s: Sys, p: int)
    requires Base(s) && IsProc(s, p) && s.st[p] == RUNNABLE
    ensures s.on[p] == -1 && (s.pc[p].Fresh? || s.pc[p].YieldBack? || s.pc[p].SleepBack?)
    ensures StateOk(RUNNING, s.chan[p], s.pc[p], true) && PlaceOk(s, p, s.pc[p])
  {
    hide LocksW, LocksS, LocksP;
    assert StateOk(s.st[p], s.chan[p], s.pc[p], s.on[p] >= 0);
  }

  lemma RunBase(s: Sys, t: Sys, c: int, p: int)
    requires Base(s) && IsCpu(s, c) && IsProc(s, p) && s.cpu[c] == Looking(p) && s.st[p] == RUNNABLE && t == Dispatch(s, c, p)
    ensures Base(t) && Swaps(s, t, p, c)
  {
    hide LocksW, LocksS, LocksP, States, PlaceOk, StateOk;
    Runnable(s, p);
    assert CpuOk(s, c);
    SwapStates(s, t, p, c);
    SwapCpus(s, t, p, c);
    SwapLocks(s, t, p, c);
  }

  lemma SwitchBase(s: Sys, t: Sys, p: int)
    requires Base(s) && SwitchStep(s, t, p)
    ensures Base(t) && Swaps(s, t, p, s.on[p])
  {
    hide LocksW, LocksS, LocksP, States;
    Here(s, p);
    HoldsChild(s, p, p);
    assert s.cpu[s.on[p]] == Running(p);
    SwapStates(s, t, p, s.on[p]);
    SwapCpus(s, t, p, s.on[p]);
    SwapLocks(s, t, p, s.on[p]);
  }

  /** A process switches holding its own lock and nothing else: sched does not panic. */
  lemma SwitchHoldsOwnLock(s: Sys, t: Sys, p: int)
    requires Base(s) && SwitchStep(s, t, p)
    ensures s.pl[p] == Proc(p) && s.wl != Proc(p) && (forall l :: IsLock(s, l) ==> s.sl[l] != Proc(p))
    ensures forall q :: IsProc(s, q) && q != p ==> s.pl[q] != Proc(p)
    ensures t.st[p] != RUNNING
  {
    hide States, Cpus;
    assert s.pl[p] == Proc(p) <==> HoldsP(s.pc[p], p, s.on[p] >= 0, p);
    assert s.wl == Proc(p) <==> HoldsW(s.pc[p]);
    forall l | IsLock(s, l) ensures s.sl[l] != Proc(p) {
      assert s.sl[l] == Proc(p) <==> HoldsS(s.pc[p], l);
    }
    forall q | IsProc(s, q) && q != p ensures s.pl[q] != Proc(p) {
      assert s.pl[q] == Proc(p) <==> HoldsP(s.pc[p], p, s.on[p] >= 0, q);
    }
    if s.pc[p].ExitSwitch? {
      Here(s, p);
    }
  }

  // ---- The rest of the invariant: a swap changes no role ----

  /** In state a at place x a process plays the same part as in state b at place y. */
  ghost predicate SamePart(a: PState, x: Pc, b: PState, y: Pc) {
    && Class(a) == Class(b) && (x == y || (Plain(x) && Plain(y) && Owed(x) == Owed(y)))
    && (forall on :: Dozes(a, x, on) == Dozes(b, y, on)) && (forall q :: MayHave(x, q) == MayHave(y, q))
  }

  /** Where a thread in yield goes on. */
  function Owed(pc: Pc): Rest {
    match pc
    case YieldLocked(rest) => rest
    case YieldBack(rest) => rest
    case _ => ToRun
  }

  /** Places that no invariant but the first speaks of, apart from where yield goes on. */
  predicate Plain(pc: Pc) {
    pc.Run? || pc.Fresh? || pc.YieldLocked? || pc.YieldBack? || pc.SleepOnly? || pc.SleepBack? || pc.ExitSwitch? || pc.Dead?
  }

  /** States and places change at most as far as parts go; what the invariants mention stays. */
  ghost predicate SameParts(s: Sys, t: Sys) {
    && Shape(s) && Shape(t) && |t.st| == |s.st| && |t.sl| == |s.sl|
    && t.parent == s.parent && t.maker == s.maker && t.wl == s.wl && t.sl == s.sl && t.locked == s.locked && t.holder == s.holder
    && t.held == s.held && t.pid == s.pid && t.nextpid == s.nextpid && t.reaps == s.reaps
    && forall p :: IsProc(s, p) ==> SamePart(s.st[p], s.pc[p], t.st[p], t.pc[p])
  }

  lemma PartsSleepers(s: Sys, t: Sys)
    requires SameParts(s, t) && Sleepers(s)
    ensures Sleepers(t)
  {
    hide MayHave, Dozes;
    forall q, l | IsProc(t, q) && IsLock(t, l) && Dozes(t.st[q], t.pc[q], OnLock(l))
      ensures t.locked[l] || Pending(t, t.sl[l], OnLock(l), q)
    {
      assert SamePart(s.st[q], s.pc[q], t.st[q], t.pc[q]);
      assert Dozes(s.st[q], s.pc[q], OnLock(l));
      PartsPending(s, t, s.sl[l], OnLock(l), q);
    }
    forall q, l | IsProc(t, q) && IsLock(t, l) && PcLocked(t.pc[q], l) ensures t.locked[l] {
      assert SamePart(s.st[q], s.pc[q], t.st[q], t.pc[q]);
    }
  }

  lemma PartsPending(s: Sys, t: Sys, o: Owner, on: Chan, q: int)
    requires SameParts(s, t)
    ensures Pending(s, o, on, q) ==> Pending(t, o, on, q)
  {
    hide MayHave, Dozes;
    if Pending(s, o, on, q) {
      assert SamePart(s.st[o.p], s.pc[o.p], t.st[o.p], t.pc[o.p]);
    }
  }

  lemma PartsHolders(s: Sys, t: Sys)
    requires SameParts(s, t) && Holders(s)
    ensures Holders(t)
  {
    hide MayHave, Dozes;
    forall q, m | IsProc(t, q) && m in t.held[q] ensures HeldOk(t, q, m) {
      assert HeldOk(s, q, m);
    }
    forall q | IsProc(t, q) && t.pc[q].RelOpen? ensures t.pc[q].l in t.held[q] {
      assert SamePart(s.st[q], s.pc[q], t.st[q], t.pc[q]);
    }
  }

  lemma PartsFamily(s: Sys, t: Sys)
    requires SameParts(s, t) && Family(s)
    ensures Family(t)
  {
    hide MayHave, Dozes, MakingOk;
    forall q | IsProc(t, q) ensures ParentOk(t, q) {
      assert ParentOk(s, q);
      assert SamePart(s.st[q], s.pc[q], t.st[q], t.pc[q]);
      var r := s.parent[q];
      if r != -1 {
        assert SamePart(s.st[r], s.pc[r], t.st[r], t.pc[r]);
      }
    }
    forall q | IsProc(t, q) ensures MakingOk(t, q, t.pc[q]) {
      assert MakingOk(s, q, s.pc[q]);
      PartsMaking(s, t, q);
    }
  }

  lemma PartsMaking(s: Sys, t: Sys, q: int)
    requires SameParts(s, t) && IsProc(s, q) && MakingOk(s, q, s.pc[q])
    ensures MakingOk(t, q, t.pc[q])
  {
    hide MayHave, Dozes;
    assert SamePart(s.st[q], s.pc[q], t.st[q], t.pc[q]);
    forall k | IsProc(s, k) ensures Class(t.st[k]) == Class(s.st[k]) {
      assert SamePart(s.st[k], s.pc[k], t.st[k], t.pc[k]);
    }
  }

  lemma PartsWaits(s: Sys, t: Sys)
    requires SameParts(s, t) && WaitsOk(s)
    ensures WaitsOk(t)
  {
    hide MayHave, Dozes, Pending, Cleared, Told;
    forall k | IsProc(s, k) ensures (t.st[k] == ZOMBIE <==> s.st[k] == ZOMBIE) && DozesInWait(t.st[k], t.pc[k], k) == DozesInWait(s.st[k], s.pc[k], k) {
      assert SamePart(s.st[k], s.pc[k], t.st[k], t.pc[k]);
    }
    forall r, q | IsProc(t, r) && IsProc(t, q) && DozesInWait(t.st[r], t.pc[r], r) && Zombie(t, r, q)
      ensures Pending(t, t.wl, OnProc(r), r)
    {
      assert Zombie(s, r, q) && DozesInWait(s.st[r], s.pc[r], r);
      PartsPending(s, t, s.wl, OnProc(r), r);
    }
    forall r, q | IsProc(t, r) && IsProc(t, q) && Cleared(t.pc[r], q) ensures !Zombie(t, r, q) {
      PartsTold(s, t, r, q);
      assert !Zombie(s, r, q);
    }
    forall x, r | IsProc(t, x) && IsProc(t, r) && x != r && Told(t.pc[x], t.parent[x], r)
      ensures !DozesInWait(t.st[r], t.pc[r], r)
    {
      PartsTold(s, t, x, r);
    }
  }

  lemma PartsTold(s: Sys, t: Sys, x: int, r: int)
    requires SameParts(s, t) && IsProc(s, x)
    ensures Cleared(t.pc[x], r) == Cleared(s.pc[x], r) && Told(t.pc[x], t.parent[x], r) == Told(s.pc[x], s.parent[x], r)
  {
    hide MayHave, Dozes;
    assert SamePart(s.st[x], s.pc[x], t.st[x], t.pc[x]);
  }

  lemma PartsPids(s: Sys, t: Sys)
    requires SameParts(s, t) && Pids(s)
    ensures Pids(t)
  {
    hide MayHave, Dozes, PidOk;
    forall q | IsProc(s, q) ensures t.st[q] == UNUSED <==> s.st[q] == UNUSED {
      assert SamePart(s.st[q], s.pc[q], t.st[q], t.pc[q]);
    }
    PidsSame(s, t);
  }

  lemma RunParts(s: Sys, t: Sys, c: int, p: int)
    requires Base(s) && IsCpu(s, c) && IsProc(s, p) && s.cpu[c] == Looking(p) && s.st[p] == RUNNABLE && t == Dispatch(s, c, p)
    ensures SameParts(s, t)
  {
    hide LocksW, LocksS, LocksP, Cpus, States;
    Runnable(s, p);
  }

  lemma SwitchParts(s: Sys, t: Sys, p: int)
    requires Base(s) && SwitchStep(s, t, p)
    ensures SameParts(s, t)
  {
    hide LocksW, LocksS, LocksP, Cpus, States;
    Here(s, p);
  }
}
