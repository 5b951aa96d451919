/** Process identities: every zombie is reaped once. */
module ProcPids {
  import opened ProcModel
  import opened ProcInv
  import opened ProcFamily

  /** The pid of a slot in use is its own, and not one that has been reaped. */
  ghost predicate PidOk(s: Sys, q: int)
    requires Shape(s) && IsProc(s, q)
  {
    s.st[q] != UNUSED ==>
      && 0 < s.pid[q] < s.nextpid && (forall i :: 0 <= i < |s.reaps| ==> s.reaps[i].pid != s.pid[q])
      && (forall r :: IsProc(s, r) && r != q && s.st[r] != UNUSED ==> s.pid[r] != s.pid[q])
  }

  ghost predicate Pids(s: Sys)
    requires Shape(s)
  {
    && 0 < s.nextpid && (forall q :: IsProc(s, q) ==> PidOk(s, q))
    && (forall i :: 0 <= i < |s.reaps| ==> 0 < s.reaps[i].pid < s.nextpid)
    && Once(s.reaps)
  }

  ghost predicate Once(reaps: seq<Reap>) {
    forall i, j :: 0 <= i < j < |reaps| ==> reaps[i].pid != reaps[j].pid
  }

  lemma PidsSame(s: Sys, t: Sys)
    requires Shape(s) && Shape(t) && Pids(s) && |t.st| == |s.st| && t.pid == s.pid && t.nextpid == s.nextpid && t.reaps == s.reaps
    requires forall q :: IsProc(s, q) ==> (t.st[q] == UNUSED <==> s.st[q] == UNUSED)
    ensures Pids(t)
  {
    forall q | IsProc(t, q) ensures PidOk(t, q) {
      assert PidOk(s, q);
    }
  }

  lemma TakePids(s: Sys, t: Sys, p: int, k: int)
    requires Takes(s, t, p, k) && Pids(s)
    ensures Shape(t) && Pids(t)
  {
    hide Family, LocksW, LocksS, LocksP, Cpus, States;
    forall q | IsProc(t, q) ensures PidOk(t, q) {
      assert PidOk(s, q);
      forall r | IsProc(t, r) && r != q && t.st[r] != UNUSED ensures t.st[q] != UNUSED ==> t.pid[r] != t.pid[q] {
        assert PidOk(s, r);
      }
    }
  }

  lemma FailPids(s: Sys, t: Sys, p: int, k: int)
    requires Shape(s) && Pids(s) && IsProc(s, p) && IsProc(s, k) && Moved(Unallocated(s, k), t, p, PutP(k), Run)
    ensures Shape(t) && Pids(t)
  {
    forall q | IsProc(t, q) ensures PidOk(t, q) {
      assert PidOk(s, q);
    }
  }

  lemma ReapPids(s: Sys, t: Sys, p: int, k: int)
    requires Reaps(s, t, p, k) && Pids(s)
    ensures Shape(t) && Pids(t)
  {
    hide Family, LocksW, LocksS, LocksP, Cpus, States;
    assert PidOk(s, k);
    forall q | IsProc(t, q) ensures PidOk(t, q) {
      assert PidOk(s, q);
    }
  }
}
