/** Sleep-locks: one holder at a time, and nobody sleeps on a free one. */
module ProcSleep {
  import opened ProcModel
  import opened ProcInv

  /** A thread in this state and place sleeps on `on`, or is about to without its lock. */
  predicate Dozes(st: PState, pc: Pc, on: Chan) {
    pc == SleepOnly(on) || (pc == SleepBack(on) && st == SLEEPING)
  }

  /** The owner of the lock is in wakeup(on) and has not passed q yet. */
  predicate Pending(s: Sys, o: Owner, on: Chan, q: int)
    requires Shape(s)
  {
    o.Proc? && IsProc(s, o.p) && s.pc[o.p].Wake? && s.pc[o.p].on == on && s.pc[o.p].k <= q
  }

  /** What the code at pc relies on about sleep-lock l. */
  predicate PcLocked(pc: Pc, l: int) {
    pc == SleepStart(OnLock(l)) || pc == SleepBoth(OnLock(l))
  }

  predicate HeldOk(s: Sys, p: int, l: int)
    requires Shape(s)
  {
    IsLock(s, l) && s.locked[l] && s.holder[l] == p
  }

  ghost predicate Holders(s: Sys)
    requires Shape(s)
  {
    && (forall p, l :: IsProc(s, p) && l in s.held[p] ==> HeldOk(s, p, l))
    && (forall p :: IsProc(s, p) && s.pc[p].RelOpen? ==> s.pc[p].l in s.held[p])
  }

  ghost predicate Sleepers(s: Sys)
    requires Shape(s)
  {
    && (forall p, l :: IsProc(s, p) && IsLock(s, l) && PcLocked(s.pc[p], l) ==> s.locked[l])
    && (forall q, l :: IsProc(s, q) && IsLock(s, l) && Dozes(s.st[q], s.pc[q], OnLock(l)) ==>
          s.locked[l] || Pending(s, s.sl[l], OnLock(l), q))
  }

  // ---- Threads ----

  /** The obligations of an effect that does not touch locked. */
  ghost predicate KeepsSleep(s: Sys, p: int, f: Effect)
    requires Shape(s) && IsProc(s, p)
  {
    && f.data.locked == s.locked && Shape(f.data) && |f.data.st| == |s.st|
    && (forall l :: IsLock(s, l) && (PcLocked(f.dest, l) || f.dest == SleepOnly(OnLock(l))) ==> s.locked[l])
    && (forall q, l :: IsProc(s, q) && q != p && WakesOn(s.pc[p], l, q) && Dozes(f.data.st[q], s.pc[q], OnLock(l)) ==> WakesOn(f.dest, l, q))
  }

  /** A thread at pc will pass q in wakeup on sleep-lock l. */
  predicate WakesOn(pc: Pc, l: int, q: int) {
    pc.Wake? && pc.on == OnLock(l) && pc.k <= q
  }

  lemma SleepersMove(s: Sys, t: Sys, p: int, f: Effect)
    requires Base(s) && Sleepers(s) && IsProc(s, p) && s.on[p] >= 0 && Sound(s, p, f) && Moved(f.data, t, p, f.ev, f.dest)
    requires KeepsSleep(s, p, f)
    ensures Shape(t) && Sleepers(t)
  {
    hide LocksW, LocksP, Cpus, PlaceOk, HoldsP, HoldsW, HoldsS, FitsW, FitsP, FitsS, Pending, States;
    forall q, l | IsProc(t, q) && IsLock(t, l) && Dozes(t.st[q], t.pc[q], OnLock(l))
      ensures t.locked[l] || Pending(t, t.sl[l], OnLock(l), q)
    {
      if q == p {
        assert StateOk(f.data.st[p], f.data.chan[p], f.dest, true);
      } else {
        assert Changed(s.st[q], f.data.st[q], s.chan[q], f.data.chan[q], s.pc[q], f.data.pc[q], s.on[q] >= 0);
        assert Dozes(s.st[q], s.pc[q], OnLock(l));
        PendingMove(s, t, p, f, q, l);
      }
    }
    forall q, l | IsProc(t, q) && IsLock(t, l) && PcLocked(t.pc[q], l) ensures t.locked[l] {
      if q != p {
        assert PcLocked(s.pc[q], l);
      }
    }
  }

  /** A pending wakeup stays pending, or the sleeper has been woken. */
  lemma PendingMove(s: Sys, t: Sys, p: int, f: Effect, q: int, l: int)
    requires Base(s) && IsProc(s, p) && s.on[p] >= 0 && Sound(s, p, f) && Moved(f.data, t, p, f.ev, f.dest) && KeepsSleep(s, p, f)
    requires IsProc(s, q) && q != p && IsLock(s, l) && Dozes(f.data.st[q], s.pc[q], OnLock(l))
    ensures Shape(t) && (Pending(s, s.sl[l], OnLock(l), q) ==> Pending(t, t.sl[l], OnLock(l), q))
  {
    hide LocksW, LocksP, Cpus, HoldsP, HoldsW, FitsW, FitsP, StateOk, Changed, Dozes, States;
    if Pending(s, s.sl[l], OnLock(l), q) {
      var w := s.sl[l].p;
      assert s.sl[l] == Proc(w) <==> HoldsS(s.pc[w], l);
      assert FitsS(s.pc[p], f.ev, f.dest, l);
      assert s.sl[l] == Proc(p) <==> HoldsS(s.pc[p], l);
      if w == p {
        assert WakesOn(s.pc[p], l, q);
        assert WakesOn(f.dest, l, q) && PlaceOk(s, p, f.dest);
      }
    }
  }

  lemma CallSleep(s: Sys, p: int, what: Choice)
    requires Base(s) && OnCpu(s, p) && KindOf(s.pc[p]) == Calls && Begin(s, p, what).can
    ensures KeepsSleep(s, p, Begin(s, p, what))
  {
    hide LocksW, LocksS, LocksP, Cpus, States;
  }

  lemma TimerSleep(s: Sys, p: int)
    requires Base(s) && OnCpu(s, p) && Preempt(s, p).can
    ensures KeepsSleep(s, p, Preempt(s, p))
  {
    hide LocksW, LocksS, LocksP, Cpus, States;
  }

  lemma SleepSleep(s: Sys, p: int)
    requires Base(s) && Sleepers(s) && OnCpu(s, p) && KindOf(s.pc[p]) == Sleeps && DoSleep(s, p).can
    ensures KeepsSleep(s, p, DoSleep(s, p))
  {
    hide LocksW, LocksS, LocksP, Cpus, States, Pending, Dozes;
    forall l | IsLock(s, l) && (PcLocked(DoSleep(s, p).dest, l) || DoSleep(s, p).dest == SleepOnly(OnLock(l)))
      ensures s.locked[l]
    {
      assert PcLocked(s.pc[p], l);
    }
  }

  /** The thread that holds the lock of q finds q either not dozing or asleep. */
  lemma NotBetween(s: Sys, p: int, q: int, on: Chan)
    requires Base(s) && OnCpu(s, p) && IsProc(s, q) && q != p && HoldsP(s.pc[p], p, true, q)
    ensures s.pc[q] != SleepOnly(on)
    ensures s.pc[q] == SleepBack(on) ==> s.chan[q] == on
  {
    hide LocksW, LocksS, Cpus, PlaceOk;
    HoldsChild(s, p, q);
    assert s.pl[q] == Proc(q) <==> HoldsP(s.pc[q], q, s.on[q] >= 0, q);
    assert StateOk(s.st[q], s.chan[q], s.pc[q], s.on[q] >= 0);
  }

  lemma WakeSleep(s: Sys, p: int)
    requires Base(s) && OnCpu(s, p) && KindOf(s.pc[p]) == Wakes && DoWake(s, p).can
    ensures KeepsSleep(s, p, DoWake(s, p))
  {
    hide LocksW, LocksS, LocksP, Cpus, States;
    Here(s, p);
    var f := DoWake(s, p);
    forall q, l | IsProc(s, q) && q != p && WakesOn(s.pc[p], l, q) && Dozes(f.data.st[q], s.pc[q], OnLock(l))
      ensures WakesOn(f.dest, l, q)
    {
      if s.pc[p].has && q == s.pc[p].k {
        NotBetween(s, p, q, OnLock(l));
      }
    }
  }

  lemma ExitSleep(s: Sys, p: int)
    requires Base(s) && OnCpu(s, p) && KindOf(s.pc[p]) == Exits && DoExit(s, p).can
    ensures KeepsSleep(s, p, DoExit(s, p))
  {
    hide LocksW, LocksS, LocksP, Cpus, States;
  }

  lemma WaitSleep(s: Sys, p: int, what: Choice)
    requires Base(s) && OnCpu(s, p) && KindOf(s.pc[p]) == Waits && DoWait(s, p, what).can
    ensures KeepsSleep(s, p, DoWait(s, p, what))
  {
    hide LocksW, LocksS, LocksP, Cpus, States;
  }

  lemma ForkSleep(s: Sys, p: int, what: Choice)
    requires Base(s) && OnCpu(s, p) && KindOf(s.pc[p]) == Forks && DoFork(s, p, what).can
    ensures KeepsSleep(s, p, DoFork(s, p, what))
  {
    hide LocksW, LocksS, LocksP, Cpus, States;
  }

  // ---- acquiresleep and releasesleep ----

  lemma AcquireSleepers(s: Sys, t: Sys, p: int, l: int)
    requires Base(s) && Sleepers(s) && OnCpu(s, p) && IsLock(s, l) && s.pc[p] == AcqTest(l) && !s.locked[l]
    requires Moved(Locked(s, p, l), t, p, Nop, AcqDone(l))
    ensures Shape(t) && Sleepers(t)
  {
    hide LocksW, LocksS, LocksP, Cpus, States;
    forall q, m | IsProc(t, q) && IsLock(t, m) && Dozes(t.st[q], t.pc[q], OnLock(m))
      ensures t.locked[m] || Pending(t, t.sl[m], OnLock(m), q)
    {
      assert Dozes(s.st[q], s.pc[q], OnLock(m));
    }
    forall q, m | IsProc(t, q) && IsLock(t, m) && PcLocked(t.pc[q], m) ensures t.locked[m] {
      assert PcLocked(s.pc[q], m);
    }
  }

  lemma AcquireHolders(s: Sys, t: Sys, p: int, l: int)
    requires Shape(s) && Holders(s) && OnCpu(s, p) && IsLock(s, l) && s.pc[p] == AcqTest(l) && !s.locked[l]
    requires Moved(Locked(s, p, l), t, p, Nop, AcqDone(l))
    ensures Shape(t) && Holders(t)
  {
    forall q, m | IsProc(t, q) && m in t.held[q] ensures HeldOk(t, q, m) {
      if !(q == p && m == l) {
        assert HeldOk(s, q, m);
      }
    }
    forall q | IsProc(t, q) && t.pc[q].RelOpen? ensures t.pc[q].l in t.held[q] {
      assert s.pc[q].l in s.held[q];
    }
  }

  lemma ReleaseSleepers(s: Sys, t: Sys, p: int, l: int)
    requires Base(s) && Sleepers(s) && OnCpu(s, p) && IsLock(s, l) && s.pc[p] == RelOpen(l)
    requires Moved(Unlocked(s, p, l), t, p, Nop, Wake(OnLock(l), 0, false, AfterRel(l)))
    ensures Shape(t) && Sleepers(t)
  {
    hide LocksW, LocksP, Cpus, States;
    assert s.sl[l] == Proc(p) <==> HoldsS(s.pc[p], l);
    forall q, m | IsProc(t, q) && IsLock(t, m) && Dozes(t.st[q], t.pc[q], OnLock(m))
      ensures t.locked[m] || Pending(t, t.sl[m], OnLock(m), q)
    {
      assert Dozes(s.st[q], s.pc[q], OnLock(m));
    }
    forall q, m | IsProc(t, q) && IsLock(t, m) && PcLocked(t.pc[q], m) ensures t.locked[m] {
      assert PcLocked(s.pc[q], m);
      assert s.sl[m] == Proc(q) <==> HoldsS(s.pc[q], m);
    }
  }

  lemma ReleaseHolders(s: Sys, t: Sys, p: int, l: int)
    requires Base(s) && Holders(s) && OnCpu(s, p) && IsLock(s, l) && s.pc[p] == RelOpen(l)
    requires Moved(Unlocked(s, p, l), t, p, Nop, Wake(OnLock(l), 0, false, AfterRel(l)))
    ensures Shape(t) && Holders(t)
  {
    hide LocksW, LocksP, Cpus, States;
    assert HeldOk(s, p, l);
    assert s.sl[l] == Proc(p) <==> HoldsS(s.pc[p], l);
    forall q, m | IsProc(t, q) && m in t.held[q] ensures HeldOk(t, q, m) {
      assert HeldOk(s, q, m);
    }
    forall q | IsProc(t, q) && t.pc[q].RelOpen? ensures t.pc[q].l in t.held[q] {
      assert s.pc[q].l in s.held[q];
      assert HeldOk(s, q, s.pc[q].l);
    }
  }

  /** Effects that leave held and the holders alone. */
  lemma HoldersMove(s: Sys, t: Sys, p: int, f: Effect)
    requires Shape(s) && Holders(s) && IsProc(s, p) && DataOnly(s, f.data, p) && Moved(f.data, t, p, f.ev, f.dest)
    requires f.data.held == s.held && f.data.locked == s.locked && f.data.holder == s.holder
    requires f.dest.RelOpen? ==> f.dest.l in s.held[p]
    ensures Shape(t) && Holders(t)
  {
    forall q, m | IsProc(t, q) && m in t.held[q] ensures HeldOk(t, q, m) {
      assert HeldOk(s, q, m);
    }
    forall q | IsProc(t, q) && t.pc[q].RelOpen? ensures t.pc[q].l in t.held[q] {
      if q != p {
        assert s.pc[q].l in s.held[q];
      }
    }
  }
}
