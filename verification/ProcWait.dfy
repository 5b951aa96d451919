/** wait and exit: no parent sleeps through the exit of a child. */
module ProcWait {
  import opened ProcModel
  import opened ProcInv
  import opened ProcSleep
  import opened ProcFamily

  /** q is a zombie child of p. */
  predicate Zombie(s: Sys, p: int, q: int)
    requires Shape(s) && IsProc(s, q)
  {
    s.parent[q] == p && s.st[q] == ZOMBIE
  }

  /** wait, at pc, has found that child q is no zombie. */
  predicate Cleared(pc: Pc, q: int) {
    match pc
    case WaitScan(k, _, _) => q < k
    case WaitKill(_) => true
    case SleepStart(on) => on.OnProc?
    case SleepBoth(on) => on.OnProc?
    case _ => false
  }

  /** A thread at pc, whose parent is r, has told p of an exit under wait_lock. */
  predicate Told(pc: Pc, r: int, p: int) {
    match pc
    case Wake(on, k, _, _) => on == OnProc(p) && p < k
    case ExitLock => r == p
    case ExitMark => r == p
    case ExitUnlock => r == p
    case _ => false
  }

  /** A thread at pc will pass p in wakeup on process p. */
  predicate WillTell(pc: Pc, p: int) {
    pc.Wake? && pc.on == OnProc(p) && pc.k <= p
  }

  predicate DozesInWait(st: PState, pc: Pc, p: int) {
    Dozes(st, pc, OnProc(p))
  }

  ghost predicate Waits1(s: Sys)
    requires Shape(s)
  {
    forall p, q :: IsProc(s, p) && IsProc(s, q) && DozesInWait(s.st[p], s.pc[p], p) && Zombie(s, p, q) ==> Pending(s, s.wl, OnProc(p), p)
  }

  ghost predicate Waits2(s: Sys)
    requires Shape(s)
  {
    forall p, q :: IsProc(s, p) && IsProc(s, q) && Cleared(s.pc[p], q) ==> !Zombie(s, p, q)
  }

  ghost predicate Waits3(s: Sys)
    requires Shape(s)
  {
    forall x, p :: IsProc(s, x) && IsProc(s, p) && x != p && Told(s.pc[x], s.parent[x], p) ==> !DozesInWait(s.st[p], s.pc[p], p)
  }

  ghost predicate WaitsOk(s: Sys)
    requires Shape(s)
  {
    Waits1(s) && Waits2(s) && Waits3(s)
  }

  /** The obligations of an effect that changes no parent and makes no zombie. */
  ghost predicate KeepsWaits(s: Sys, p: int, f: Effect)
    requires Shape(s) && IsProc(s, p)
  {
    && DataOnly(s, f.data, p) && f.data.parent == s.parent && f.data.pc == s.pc
    && (forall q :: IsProc(s, q) ==> (f.data.st[q] == ZOMBIE <==> s.st[q] == ZOMBIE))
    && (f.dest == SleepOnly(OnProc(p)) ==> s.pc[p] == SleepBoth(OnProc(p)))
    && (forall q :: IsProc(s, q) && Cleared(f.dest, q) ==> !Zombie(s, p, q))
    && (forall r :: IsProc(s, r) && r != p && DozesInWait(f.data.st[r], s.pc[r], r) ==>
          (WillTell(s.pc[p], r) ==> WillTell(f.dest, r)) && !Told(f.dest, s.parent[p], r))
  }

  /** Another process dozes after a step only if it did before. */
  lemma DozedBefore(s: Sys, p: int, f: Effect, r: int, on: Chan)
    requires Shape(s) && IsProc(s, p) && Sound(s, p, f) && IsProc(s, r) && r != p && Dozes(f.data.st[r], f.data.pc[r], on)
    ensures Dozes(s.st[r], s.pc[r], on) && f.data.pc[r] == s.pc[r]
  {
    hide Fits, StateOk, PlaceOk;
    assert Changed(s.st[r], f.data.st[r], s.chan[r], f.data.chan[r], s.pc[r], f.data.pc[r], s.on[r] >= 0);
  }

  lemma Waits2Move(s: Sys, t: Sys, p: int, f: Effect)
    requires Shape(s) && Waits2(s) && IsProc(s, p) && KeepsWaits(s, p, f) && Moved(f.data, t, p, f.ev, f.dest)
    ensures Shape(t) && Waits2(t)
  {
    hide Cleared, Told, WillTell, DozesInWait;
    forall r, q | IsProc(t, r) && IsProc(t, q) && Cleared(t.pc[r], q) ensures !Zombie(t, r, q) {
      assert f.data.st[q] == ZOMBIE <==> s.st[q] == ZOMBIE;
      if r != p {
        assert !Zombie(s, r, q);
      }
    }
  }

  lemma Waits3Move(s: Sys, t: Sys, p: int, f: Effect)
    requires Base(s) && Waits3(s) && OnCpu(s, p) && Sound(s, p, f) && KeepsWaits(s, p, f) && Moved(f.data, t, p, f.ev, f.dest)
    ensures Shape(t) && Waits3(t)
  {
    hide LocksS, LocksP, Cpus, States, PlaceOk, StateOk, Fits, Changed, Cleared, Zombie, WillTell, Told;
    forall x, r | IsProc(t, x) && IsProc(t, r) && x != r && Told(t.pc[x], t.parent[x], r)
      ensures !DozesInWait(t.st[r], t.pc[r], r)
    {
      if x == p {
        Waits3Other(s, t, p, f, r);
      } else if r == p {
        Waits3Self(s, t, p, f, x);
      } else if DozesInWait(t.st[r], t.pc[r], r) {
        DozedBefore(s, p, f, r, OnProc(r));
      }
    }
  }

  lemma Waits3Other(s: Sys, t: Sys, p: int, f: Effect, r: int)
    requires Shape(s) && IsProc(s, p) && KeepsWaits(s, p, f) && Moved(f.data, t, p, f.ev, f.dest) && IsProc(s, r) && r != p
    requires Told(f.dest, s.parent[p], r)
    ensures Shape(t) && !DozesInWait(t.st[r], t.pc[r], r)
  {
    hide Cleared, Told, WillTell, Dozes;
  }

  /** A process that was told and has just dropped wait_lock cannot be: the teller holds it. */
  lemma Waits3Self(s: Sys, t: Sys, p: int, f: Effect, x: int)
    requires Base(s) && OnCpu(s, p) && Sound(s, p, f) && KeepsWaits(s, p, f) && Moved(f.data, t, p, f.ev, f.dest)
    requires IsProc(s, x) && x != p && Told(s.pc[x], s.parent[x], p)
    ensures Shape(t) && !DozesInWait(t.st[p], t.pc[p], p)
  {
    hide LocksS, LocksP, Cpus, Fits, Changed, Cleared, Zombie, WillTell;
    assert s.wl == Proc(p) <==> HoldsW(s.pc[p]);
    assert s.wl == Proc(x) <==> HoldsW(s.pc[x]);
    assert PlaceOk(s, x, s.pc[x]);
    assert StateOk(f.data.st[p], f.data.chan[p], f.dest, true);
  }

  lemma Waits1Move(s: Sys, t: Sys, p: int, f: Effect)
    requires Base(s) && Waits1(s) && Waits2(s) && OnCpu(s, p) && Sound(s, p, f) && KeepsWaits(s, p, f) && Moved(f.data, t, p, f.ev, f.dest)
    ensures Shape(t) && Waits1(t)
  {
    hide LocksW, LocksS, LocksP, Cpus, States, PlaceOk, StateOk, Fits, Changed, WillTell, Told, Pending;
    forall r, q | IsProc(t, r) && IsProc(t, q) && DozesInWait(t.st[r], t.pc[r], r) && Zombie(t, r, q)
      ensures Pending(t, t.wl, OnProc(r), r)
    {
      assert f.data.st[q] == ZOMBIE <==> s.st[q] == ZOMBIE;
      if r == p {
        DozeCleared(s, t, p, f, q);
      } else {
        DozedBefore(s, p, f, r, OnProc(r));
        assert DozesInWait(s.st[r], s.pc[r], r) && Zombie(s, r, q);
        TellMove(s, t, p, f, r);
      }
    }
  }

  /** A process that goes to sleep in wait has no zombie child. */
  lemma DozeCleared(s: Sys, t: Sys, p: int, f: Effect, q: int)
    requires Base(s) && Waits2(s) && OnCpu(s, p) && Sound(s, p, f) && KeepsWaits(s, p, f) && Moved(f.data, t, p, f.ev, f.dest)
    requires IsProc(s, q) && DozesInWait(f.data.st[p], f.dest, p)
    ensures !Zombie(s, p, q)
  {
    hide LocksW, LocksS, LocksP, Cpus, States, PlaceOk, Fits, Changed, WillTell, Told;
    assert StateOk(f.data.st[p], f.data.chan[p], f.dest, true);
    assert Cleared(s.pc[p], q);
  }

  lemma TellMove(s: Sys, t: Sys, p: int, f: Effect, r: int)
    requires Base(s) && OnCpu(s, p) && Sound(s, p, f) && KeepsWaits(s, p, f) && Moved(f.data, t, p, f.ev, f.dest)
    requires IsProc(s, r) && r != p && DozesInWait(f.data.st[r], s.pc[r], r) && Pending(s, s.wl, OnProc(r), r)
    ensures Shape(t) && Pending(t, t.wl, OnProc(r), r)
  {
    hide LocksS, LocksP, Cpus, States, StateOk, Changed, Told, Dozes, Cleared, FitsP, FitsS;
    var x := s.wl.p;
    assert s.wl == Proc(x) <==> HoldsW(s.pc[x]);
    assert s.wl == Proc(p) <==> HoldsW(s.pc[p]);
    if x == p {
      assert WillTell(s.pc[p], r) && WillTell(f.dest, r) && PlaceOk(s, p, f.dest);
    }
  }

  lemma WaitsMove(s: Sys, t: Sys, p: int, f: Effect)
    requires Base(s) && WaitsOk(s) && OnCpu(s, p) && Sound(s, p, f) && KeepsWaits(s, p, f) && Moved(f.data, t, p, f.ev, f.dest)
    ensures Shape(t) && WaitsOk(t)
  {
    hide Base, Waits1, Waits2, Waits3, Sound, KeepsWaits, Moved;
    BaseShape(s);
    Waits1Move(s, t, p, f);
    Waits2Move(s, t, p, f);
    Waits3Move(s, t, p, f);
  }

  // ---- Threads ----

  lemma CallWaits(s: Sys, p: int, what: Choice)
    requires Base(s) && OnCpu(s, p) && KindOf(s.pc[p]) == Calls && Begin(s, p, what).can
    ensures KeepsWaits(s, p, Begin(s, p, what))
  {
    hide LocksW, LocksS, LocksP, Cpus, States, Dozes;
  }

  lemma TimerWaits(s: Sys, p: int)
    requires Base(s) && OnCpu(s, p) && Preempt(s, p).can
    ensures KeepsWaits(s, p, Preempt(s, p))
  {
    hide LocksW, LocksS, LocksP, Cpus, States, Dozes;
  }

  lemma LockWaits(s: Sys, p: int)
    requires Base(s) && OnCpu(s, p) && KindOf(s.pc[p]) == Locks && DoLock(s, p).can
    ensures KeepsWaits(s, p, DoLock(s, p))
  {
    hide LocksW, LocksS, LocksP, Cpus, States, Dozes;
  }

  lemma SleepWaits(s: Sys, p: int)
    requires Base(s) && Waits2(s) && OnCpu(s, p) && KindOf(s.pc[p]) == Sleeps && DoSleep(s, p).can
    ensures KeepsWaits(s, p, DoSleep(s, p))
  {
    hide LocksW, LocksS, LocksP, Cpus, States, Dozes, Zombie;
    Here(s, p);
    forall q | IsProc(s, q) && Cleared(DoSleep(s, p).dest, q) ensures !Zombie(s, p, q) {
      assert Cleared(s.pc[p], q);
    }
  }

  lemma WakeWaits(s: Sys, p: int)
    requires Base(s) && Family(s) && Waits3(s) && OnCpu(s, p) && KindOf(s.pc[p]) == Wakes && DoWake(s, p).can
    ensures KeepsWaits(s, p, DoWake(s, p))
  {
    hide LocksW, LocksS, LocksP, Cpus, States, ParentOk, Cleared;
    Here(s, p);
    assert MakingOk(s, p, s.pc[p]);
    var f := DoWake(s, p);
    assert forall q :: !Cleared(f.dest, q) by { NotCleared(s.pc[p], f.dest); }
    forall r | IsProc(s, r) && r != p && DozesInWait(f.data.st[r], s.pc[r], r)
      ensures (WillTell(s.pc[p], r) ==> WillTell(f.dest, r)) && !Told(f.dest, s.parent[p], r)
    {
      if s.pc[p].Wake? {
        TellStep(s, p, r);
      }
    }
  }

  lemma NotCleared(a: Pc, b: Pc)
    requires b.Wake? || b.RelClose? || b.ExitReparent? || b.ExitLock? || b.Run?
    ensures forall q :: !Cleared(b, q)
  {
  }

  /** wakeup passes r only when r does not doze any more. */
  lemma TellStep(s: Sys, p: int, r: int)
    requires Base(s) && Waits3(s) && OnCpu(s, p) && s.pc[p].Wake? && DoWake(s, p).can && MakingOk(s, p, s.pc[p]) && PlaceOk(s, p, s.pc[p])
    requires IsProc(s, r) && r != p && DozesInWait(DoWake(s, p).data.st[r], s.pc[r], r)
    ensures var f := DoWake(s, p); (WillTell(s.pc[p], r) ==> WillTell(f.dest, r)) && !Told(f.dest, s.parent[p], r)
  {
    hide LocksW, LocksS, LocksP, Cpus, States, StateOk, PlaceOk, HoldsS, HoldsW;
    assert DozesInWait(s.st[r], s.pc[r], r);
    assert !Told(s.pc[p], s.parent[p], r);
    if s.pc[p].has && r == s.pc[p].k {
      NotBetween(s, p, r, OnProc(r));
    }
  }

  lemma ExitWaits(s: Sys, p: int)
    requires Base(s) && Waits3(s) && OnCpu(s, p) && KindOf(s.pc[p]) == Exits && DoExit(s, p).can
    requires !s.pc[p].ExitMark? && DoExit(s, p).data == s
    ensures KeepsWaits(s, p, DoExit(s, p))
  {
    hide LocksW, LocksS, LocksP, Cpus, States, Dozes;
    Here(s, p);
    forall r | IsProc(s, r) && r != p && DozesInWait(s.st[r], s.pc[r], r) ensures !Told(s.pc[p], s.parent[p], r) {
    }
  }

  lemma WaitWaits(s: Sys, p: int, what: Choice)
    requires Base(s) && Waits2(s) && OnCpu(s, p) && KindOf(s.pc[p]) == Waits && DoWait(s, p, what).can && DoWait(s, p, what).data == s
    ensures KeepsWaits(s, p, DoWait(s, p, what))
  {
    hide LocksW, LocksS, LocksP, Cpus, States, Dozes;
    Here(s, p);
    forall q | IsProc(s, q) && Cleared(DoWait(s, p, what).dest, q) ensures !Zombie(s, p, q) {
      if Cleared(s.pc[p], q) {
        assert !Zombie(s, p, q);
      }
    }
  }

  /** fork, where it changes no data. */
  lemma ForkWaits(s: Sys, p: int, what: Choice)
    requires Base(s) && OnCpu(s, p) && KindOf(s.pc[p]) == Forks && DoFork(s, p, what).can && DoFork(s, p, what).data == s
    ensures KeepsWaits(s, p, DoFork(s, p, what))
  {
    hide LocksW, LocksS, LocksP, Cpus, States, Dozes;
  }

  /** fork changes the state of a slot that is not a zombie. */
  lemma SlotWaits(s: Sys, p: int, f: Effect, k: int)
    requires Shape(s) && IsProc(s, p) && IsProc(s, k) && DataOnly(s, f.data, p) && s.st[k] != ZOMBIE && f.data.st[k] != ZOMBIE
    requires f.data.parent == s.parent && f.data.pc == s.pc && f.data.st == s.st[k := f.data.st[k]]
    requires f.dest.ForkUsed? || f.dest.ForkSet? || f.dest.Run?
    requires s.pc[p].ForkScan? || s.pc[p].ForkUsed? || s.pc[p].ForkReady?
    ensures KeepsWaits(s, p, f)
  {
    hide Dozes;
  }

  // ---- Steps that change the family ----

  /** A thread that does not hold wait_lock relies on nothing about its children and has told
      nobody of an exit. */
  lemma OutsideWait(s: Sys, r: int, q: int)
    requires Base(s) && IsProc(s, r) && s.wl != Proc(r)
    ensures !Cleared(s.pc[r], q) && forall y :: !Told(s.pc[r], y, q)
  {
    hide LocksS, LocksP, Cpus, StateOk, HoldsP, HoldsS;
    assert s.wl == Proc(r) <==> HoldsW(s.pc[r]);
    assert PlaceOk(s, r, s.pc[r]);
  }

  lemma NobodyElse(s: Sys, p: int, r: int, q: int)
    requires Base(s) && IsProc(s, p) && IsProc(s, r) && HoldsW(s.pc[p]) && r != p
    ensures !Cleared(s.pc[r], q) && forall y :: !Told(s.pc[r], y, q)
  {
    hide LocksS, LocksP, Cpus, States, HoldsW, Cleared, Told;
    assert s.wl == Proc(p) <==> HoldsW(s.pc[p]);
    OutsideWait(s, r, q);
  }

  lemma NonePending(s: Sys, p: int, r: int)
    requires Base(s) && IsProc(s, p) && HoldsW(s.pc[p]) && !s.pc[p].Wake?
    ensures !Pending(s, s.wl, OnProc(r), r)
  {
    hide LocksS, LocksP, Cpus, States, HoldsW;
    assert s.wl == Proc(p) <==> HoldsW(s.pc[p]);
  }

  // exit marks p as a zombie: its parent has been told, and nobody else is in wait.

  lemma LeaveWaits1(s: Sys, t: Sys, p: int)
    requires Leaves(s, t, p) && WaitsOk(s)
    ensures Shape(t) && Waits1(t)
  {
    hide LocksW, LocksS, LocksP, Cpus, States, Family, Cleared, PlaceOk, StateOk, HoldsP, HoldsS, Pending;
    ParentApart(s, p);
    forall r, q | IsProc(t, r) && IsProc(t, q) && DozesInWait(t.st[r], t.pc[r], r) ensures !Zombie(t, r, q) {
      assert DozesInWait(s.st[r], s.pc[r], r);
      assert !Told(s.pc[p], s.parent[p], r);
      NonePending(s, p, r);
      assert q != p ==> (Zombie(t, r, q) <==> Zombie(s, r, q));
    }
  }

  lemma ParentApart(s: Sys, p: int)
    requires Shape(s) && Family(s) && IsProc(s, p)
    ensures s.parent[p] != p
  {
    assert ParentOk(s, p);
  }

  lemma LeaveWaits2(s: Sys, t: Sys, p: int)
    requires Leaves(s, t, p)
    ensures Shape(t) && Waits2(t)
  {
    hide LocksW, LocksS, LocksP, Cpus, States, Family, PlaceOk, StateOk, HoldsP, HoldsS;
    forall r, q | IsProc(t, r) && IsProc(t, q) ensures !Cleared(t.pc[r], q) {
      if r != p {
        NobodyElse(s, p, r, q);
      }
    }
  }

  lemma LeaveWaits3(s: Sys, t: Sys, p: int)
    requires Leaves(s, t, p) && Waits3(s)
    ensures Shape(t) && Waits3(t)
  {
    hide LocksW, LocksS, LocksP, Cpus, States, Family, Cleared, PlaceOk, StateOk, HoldsP, HoldsS;
    forall x, r | IsProc(t, x) && IsProc(t, r) && x != r && Told(t.pc[x], t.parent[x], r)
      ensures !DozesInWait(t.st[r], t.pc[r], r)
    {
      assert Told(s.pc[x], s.parent[x], r);
    }
  }

  // exit gives child k to init, and then wakes init.

  lemma GiveWaits1(s: Sys, t: Sys, p: int, k: int)
    requires Gives(s, t, p, k) && WaitsOk(s)
    ensures Shape(t) && Waits1(t)
  {
    hide LocksS, LocksP, Cpus, States, Family, Cleared, PlaceOk, StateOk, HoldsP, HoldsS;
    assert s.wl == Proc(p) <==> HoldsW(s.pc[p]);
    forall r, q | IsProc(t, r) && IsProc(t, q) && DozesInWait(t.st[r], t.pc[r], r) && Zombie(t, r, q)
      ensures Pending(t, t.wl, OnProc(r), r)
    {
      if r != 0 {
        assert DozesInWait(s.st[r], s.pc[r], r) && Zombie(s, r, q);
        NonePending(s, p, r);
        assert false;
      }
    }
  }

  lemma GiveWaits2(s: Sys, t: Sys, p: int, k: int)
    requires Gives(s, t, p, k)
    ensures Shape(t) && Waits2(t)
  {
    hide LocksW, LocksS, LocksP, Cpus, States, Family, PlaceOk, StateOk, HoldsP, HoldsS;
    forall r, q | IsProc(t, r) && IsProc(t, q) ensures !Cleared(t.pc[r], q) {
      if r != p {
        NobodyElse(s, p, r, q);
      }
    }
  }

  lemma GiveWaits3(s: Sys, t: Sys, p: int, k: int)
    requires Gives(s, t, p, k)
    ensures Shape(t) && Waits3(t)
  {
    hide LocksW, LocksS, LocksP, Cpus, States, Family, PlaceOk, StateOk, HoldsP, HoldsS;
    forall x, r | IsProc(t, x) && IsProc(t, r) ensures !Told(t.pc[x], t.parent[x], r) {
      if x != p {
        NobodyElse(s, p, x, r);
      }
    }
  }

  // wait reaps its zombie child k.

  lemma ReapWaits1(s: Sys, t: Sys, p: int, k: int)
    requires Reaps(s, t, p, k) && Waits1(s)
    ensures Shape(t) && Waits1(t)
  {
    hide LocksW, LocksS, LocksP, Cpus, States, Family, Cleared, PlaceOk, StateOk, HoldsP, HoldsS, Pending;
    forall r, q | IsProc(t, r) && IsProc(t, q) && DozesInWait(t.st[r], t.pc[r], r) ensures !Zombie(t, r, q) {
      NonePending(s, p, r);
      assert q != k ==> (Zombie(t, r, q) <==> Zombie(s, r, q));
      assert r != k && r != p ==> DozesInWait(s.st[r], s.pc[r], r);
    }
  }

  lemma ReapWaits23(s: Sys, t: Sys, p: int, k: int)
    requires Reaps(s, t, p, k)
    ensures Shape(t) && Waits2(t) && Waits3(t)
  {
    hide LocksW, LocksS, LocksP, Cpus, States, Family, PlaceOk, StateOk, HoldsP, HoldsS;
    forall r, q | IsProc(t, r) && IsProc(t, q) ensures !Cleared(t.pc[r], q) {
      if r != p {
        NobodyElse(s, p, r, q);
      }
    }
    forall x, r | IsProc(t, x) && IsProc(t, r) ensures !Told(t.pc[x], t.parent[x], r) {
      if x != p {
        NobodyElse(s, p, x, r);
      }
    }
  }

  // fork makes p the parent of slot k.

  ghost predicate Links(s: Sys, t: Sys, p: int, k: int) {
    && Base(s) && Family(s) && OnCpu(s, p) && s.pc[p] == ForkLink(k) && IsProc(s, k)
    && Moved(s.(parent := s.parent[k := p]), t, p, GetW, ForkLinked(k))
  }

  lemma LinkWaits1(s: Sys, t: Sys, p: int, k: int)
    requires Links(s, t, p, k) && Waits1(s)
    ensures Shape(t) && Waits1(t)
  {
    hide LocksW, LocksS, LocksP, Cpus, States, ParentOk, Cleared, PlaceOk, StateOk, HoldsP, HoldsS;
    assert MakingOk(s, p, s.pc[p]);
    forall r, q | IsProc(t, r) && IsProc(t, q) && DozesInWait(t.st[r], t.pc[r], r) ensures !Zombie(t, r, q) {
      assert q != k ==> (Zombie(t, r, q) <==> Zombie(s, r, q));
      assert r != p ==> DozesInWait(s.st[r], s.pc[r], r);
    }
  }

  lemma LinkWaits23(s: Sys, t: Sys, p: int, k: int)
    requires Links(s, t, p, k)
    ensures Shape(t) && Waits2(t) && Waits3(t)
  {
    hide LocksW, LocksS, LocksP, Cpus, States, Family, PlaceOk, StateOk, HoldsP, HoldsS;
    forall r, q | IsProc(t, r) && IsProc(t, q) ensures !Cleared(t.pc[r], q) {
      OutsideWait(s, r, q);
    }
    forall x, r | IsProc(t, x) && IsProc(t, r) ensures !Told(t.pc[x], t.parent[x], r) {
      OutsideWait(s, x, r);
    }
  }
}
