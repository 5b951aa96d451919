/** Space in the log (begin_op's reservation against log_write's panic), over the runs of
    LogGroupCommit in which no operation logs more than MAXOPBLOCKS distinct blocks. */
module LogSpace {
  import opened LogFormat
  import opened LogGroupCommit

  /** The step keeps its operation within MAXOPBLOCKS distinct blocks. */
  ghost predicate Budgeted(c: Config, s: Sys, step: Step) {
    step.LogWrite? && step.o in s.ops ==> |s.ops[step.o].logged + {step.b}| <= c.maxOp
  }

  ghost predicate BudgetedRun(c: Config, states: seq<Sys>, steps: seq<Step>) {
    Run(c, states, steps) && forall i :: 0 <= i < |steps| ==> Budgeted(c, states[i], steps[i])
  }

  /** Log blocks still reserved for the running operations. */
  ghost function Unspent(maxOp: nat, ops: map<OpId, Op>): (r: nat)
    requires forall o :: o in ops ==> ops[o].spent <= maxOp
    decreases |ops|
  {
    if ops == map[] then 0
    else
      var o :| o in ops;
      assert |ops - {o}| < |ops| by { RemoveShrinks(ops, o); }
      maxOp - ops[o].spent + Unspent(maxOp, ops - {o})
  }

  lemma RemoveShrinks(ops: map<OpId, Op>, o: OpId)
    requires o in ops
    ensures |ops - {o}| == |ops| - 1
  {
    assert (ops - {o}).Keys == ops.Keys - {o};
    assert |ops| == |ops.Keys| && |ops - {o}| == |(ops - {o}).Keys|;
  }

  /** The sum does not depend on the order the operations are taken in. */
  lemma {:induction false} UnspentWithout(maxOp: nat, ops: map<OpId, Op>, o: OpId)
    requires o in ops && forall p :: p in ops ==> ops[p].spent <= maxOp
    ensures Unspent(maxOp, ops) == maxOp - ops[o].spent + Unspent(maxOp, ops - {o})
    decreases |ops|
  {
    var p :| p in ops && Unspent(maxOp, ops) == maxOp - ops[p].spent + Unspent(maxOp, ops - {p});
    if p != o {
      RemoveShrinks(ops, p);
      RemoveShrinks(ops, o);
      UnspentWithout(maxOp, ops - {p}, o);
      UnspentWithout(maxOp, ops - {o}, p);
      assert ops - {p} - {o} == ops - {o} - {p};
    }
  }

  lemma UnspentUpdate(maxOp: nat, ops: map<OpId, Op>, o: OpId, op: Op)
    requires op.spent <= maxOp && forall p :: p in ops ==> ops[p].spent <= maxOp
    ensures Unspent(maxOp, ops[o := op]) == maxOp - op.spent + Unspent(maxOp, ops - {o})
  {
    UnspentWithout(maxOp, ops[o := op], o);
    assert ops[o := op] - {o} == ops - {o};
  }

  lemma {:induction false} UnspentAtMost(maxOp: nat, ops: map<OpId, Op>)
    requires forall p :: p in ops ==> ops[p].spent <= maxOp
    ensures Unspent(maxOp, ops) <= |ops| * maxOp
    decreases |ops|
  {
    if ops != map[] {
      var o :| o in ops;
      RemoveShrinks(ops, o);
      UnspentWithout(maxOp, ops, o);
      UnspentAtMost(maxOp, ops - {o});
      OneMore(|ops - {o}|, maxOp);
    }
  }

  lemma OneMore(n: int, m: int)
    ensures (n + 1) * m == n * m + m
  {
  }

  ghost predicate SpaceInv(c: Config, s: Sys) {
    && (forall o :: o in s.ops ==>
          && s.ops[o].spent <= |s.ops[o].logged| <= c.maxOp
          && forall b :: b in s.ops[o].logged ==> b in s.lh)
    && (s.pc == Idle ==> |s.lh| + Unspent(c.maxOp, s.ops) <= c.g.logSize)
  }

  lemma RoomForOneMore(c: Config, n: nat, ops: map<OpId, Op>, o: OpId)
    requires Room(c, n, |ops|) && o !in ops && forall p :: p in ops ==> ops[p].spent <= c.maxOp
    ensures n + Unspent(c.maxOp, ops[o := Op({}, 0)]) <= c.g.logSize
  {
    UnspentAtMost(c.maxOp, ops);
    UnspentUpdate(c.maxOp, ops, o, Op({}, 0));
    assert ops - {o} == ops;
    assert (|ops| + 1) * c.maxOp == |ops| * c.maxOp + c.maxOp;
  }

  lemma BeginSpace(c: Config, s: Sys, o: OpId, s': Sys)
    requires Inv(c, s) && SpaceInv(c, s) && BeginStep(c, s, o, s')
    ensures SpaceInv(c, s')
  {
    hide Inv, Room, Unspent;
    NotBegun(c, s, o);
    RoomForOneMore(c, |s.lh|, s.ops, o);
  }

  lemma NotBegun(c: Config, s: Sys, o: OpId)
    requires Inv(c, s) && o !in s.begun
    ensures o !in s.ops
  {
    hide DiskInv, CacheInv;
  }

  lemma LogWriteSpace(c: Config, s: Sys, o: OpId, b: int, s': Sys)
    requires Inv(c, s) && SpaceInv(c, s) && LogWriteStep(c, s, o, b, s') && Budgeted(c, s, LogWrite(o, b))
    ensures SpaceInv(c, s')
  {
    hide DiskInv, CacheInv, HistoryInv;
    var op := s'.ops[o];
    if b !in s.lh {
      assert b !in s.ops[o].logged;
    }
    assert op.spent <= |op.logged| <= c.maxOp;
    UnspentWithout(c.maxOp, s.ops, o);
    UnspentUpdate(c.maxOp, s.ops, o, op);
  }

  lemma EndSpace(c: Config, s: Sys, o: OpId, s': Sys)
    requires Inv(c, s) && SpaceInv(c, s) && EndStep(s, o, s')
    ensures SpaceInv(c, s')
  {
    hide DiskInv, CacheInv, HistoryInv;
    UnspentWithout(c.maxOp, s.ops, o);
  }

  /** With no operation running and nothing to log, there is space. */
  lemma NoOpsSpace(c: Config, s: Sys)
    requires s.ops == map[] && (s.pc == Idle ==> s.lh == []) && c.g.logSize >= 0
    ensures SpaceInv(c, s)
  {
  }

  /** No operation runs while the log is committed or recovered. */
  lemma QuietFacts(c: Config, s: Sys)
    requires Inv(c, s) && s.pc != Idle
    ensures s.ops == map[] && c.g.logSize >= 0
    ensures s.pc.Commit? && s.pc.k == CommitLength(s.pc.h) ==> s.lh == []
    ensures s.pc.Recover? ==> s.lh == []
  {
    hide CacheInv, HistoryInv, RecoversTo;
  }

  lemma CommitSpace(c: Config, s: Sys, step: Step, s': Sys)
    requires Inv(c, s) && Next(c, s, step, s') && (step.CommitWrite? || step.CommitEnd? || step.RecoverWrite? || step.RecoverEnd?)
    ensures SpaceInv(c, s')
  {
    hide DiskInv, CacheInv, HistoryInv, SpaceInv, Install, Head, Sane;
    QuietFacts(c, s);
    NoOpsSpace(c, s');
  }

  lemma NextSpace(c: Config, s: Sys, step: Step, s': Sys)
    requires Inv(c, s) && SpaceInv(c, s) && Next(c, s, step, s') && Budgeted(c, s, step)
    ensures SpaceInv(c, s')
  {
    hide DiskInv, CacheInv, HistoryInv;
    match step
    case BeginOp(o) => BeginSpace(c, s, o, s');
    case LogWrite(o, b) => LogWriteSpace(c, s, o, b, s');
    case EndOp(o) => EndSpace(c, s, o, s');
    case CommitWrite => CommitSpace(c, s, step, s');
    case CommitEnd => CommitSpace(c, s, step, s');
    case RecoverWrite => CommitSpace(c, s, step, s');
    case RecoverEnd => CommitSpace(c, s, step, s');
    case _ =>
  }

  lemma {:induction false} RunSpace(c: Config, states: seq<Sys>, steps: seq<Step>, i: nat)
    requires BudgetedRun(c, states, steps) && i < |states|
    ensures Inv(c, states[i]) && SpaceInv(c, states[i])
  {
    RunInv(c, states, steps, i);
    if i > 0 {
      RunSpace(c, states, steps, i - 1);
      hide Inv, SpaceInv;
      NextSpace(c, states[i - 1], steps[i - 1], states[i]);
    }
  }

  /** The reservation works: in every state of every budgeted run, the logged blocks and
      the unspent reservations fit in LOGSIZE together. So an operation that has part of
      its reservation left always finds the list short of LOGSIZE; in particular one that
      logs a block not yet in the list does. With a log region of more than LOGSIZE
      blocks its log_write then cannot panic. */
  lemma ReservationHolds(c: Config, states: seq<Sys>, steps: seq<Step>, i: nat, o: OpId, b: int)
    requires BudgetedRun(c, states, steps) && i < |states| && Holds(states[i], o, b)
    requires |states[i].ops[o].logged + {b}| <= c.maxOp
    ensures b !in states[i].lh ==> states[i].ops[o].spent < c.maxOp
    ensures states[i].ops[o].spent < c.maxOp ==> |states[i].lh| < c.g.logSize
    ensures states[i].ops[o].spent < c.maxOp && c.g.size > c.g.logSize ==> !TooBig(c, states[i])
  {
    RunSpace(c, states, steps, i);
    hide DiskInv, CacheInv, HistoryInv;
    var s := states[i];
    UnspentWithout(c.maxOp, s.ops, o);
    if b !in s.lh {
      assert b !in s.ops[o].logged;
    }
  }

  // ---- What the reservation does not cover ----

  /** The j-th block after the log region. */
  function Data(c: Config, j: int): int {
    c.g.start + c.g.size + j
  }

  /** Blocks that operation o has logged when the first m are logged, maxOp for each. */
  function Share(c: Config, m: int, o: OpId): nat {
    var x := if o == 0 then m else if o == 1 then m - c.maxOp else m - 2 * c.maxOp;
    if x < 0 then 0 else if x > c.maxOp then c.maxOp else x
  }

  /** Operations 0, 1 and 2 run, and between them, in that order, they have logged the
      first m blocks after the log region and released them. */
  ghost predicate Filled(c: Config, s: Sys, m: nat) {
    && s.pc == Idle && |s.lh| == m && (forall j :: 0 <= j < m ==> s.lh[j] == Data(c, j))
    && s.ops.Keys == {0, 1, 2}
    && (forall o :: o in s.ops ==> |s.ops[o].logged| <= s.ops[o].spent == Share(c, m, o))
    && (forall b :: b in s.cache ==> s.cache[b].holder == None)
    && (m > 0 ==> Data(c, 0) in s.ops[0].logged)
  }

  /** The constants of param.h, as far as they matter here: LOGSIZE is three times
      MAXOPBLOCKS, and the disk has that many blocks after the log. */
  ghost predicate Source(c: Config) {
    && c.g.Valid() && c.maxOp >= 1 && c.g.logSize == 3 * c.maxOp
    && c.g.start + c.g.size + c.g.logSize <= c.g.nblocks
  }

  lemma Extend(c: Config, states: seq<Sys>, steps: seq<Step>, step: Step, s: Sys)
    requires BudgetedRun(c, states, steps) && Next(c, states[|states| - 1], step, s)
    requires Budgeted(c, states[|states| - 1], step)
    ensures BudgetedRun(c, states + [s], steps + [step])
  {
    var states', steps' := states + [s], steps + [step];
    forall i | 0 <= i < |steps'|
      ensures Next(c, states'[i], steps'[i], states'[i + 1]) && Budgeted(c, states'[i], steps'[i])
    {
      hide Next, Budgeted;
      if i < |steps| {
        assert steps'[i] == steps[i] && states'[i] == states[i] && states'[i + 1] == states[i + 1];
      }
    }
  }

  lemma InvSane(c: Config, s: Sys)
    requires Inv(c, s)
    ensures Sane(c, s)
  {
  }

  ghost function Last(states: seq<Sys>): Sys
    requires states != []
  {
    states[|states| - 1]
  }

  lemma Begin(c: Config, states: seq<Sys>, steps: seq<Step>, o: OpId) returns (s: Sys)
    requires BudgetedRun(c, states, steps)
    requires Last(states).pc == Idle && o !in Last(states).begun && Room(c, |Last(states).lh|, |Last(states).ops|)
    ensures BudgetedRun(c, states + [s], steps + [BeginOp(o)])
    ensures s == Last(states).(ops := Last(states).ops[o := Op({}, 0)], begun := Last(states).begun + {o})
  {
    var last := Last(states);
    RunInv(c, states, steps, |states| - 1);
    InvSane(c, last);
    s := last.(ops := last.ops[o := Op({}, 0)], begun := last.begun + {o});
    assert !last.committing;
    hide Run, Inv, Sane, Room;
    Extend(c, states, steps, BeginOp(o), s);
  }

  /** Three operations begin. */
  lemma Start(c: Config, s: Sys) returns (states: seq<Sys>, steps: seq<Step>)
    requires Source(c) && Init(c.g, s)
    ensures BudgetedRun(c, states, steps) && Filled(c, Last(states), 0)
  {
    states, steps := [s], [];
    hide BudgetedRun;
    assert BudgetedRun(c, states, steps) by { StartRun(c, s); }
    assert s.pc == Idle && s.lh == [] && s.ops == map[] && s.cache == map[] && s.begun == {};
    hide Init;
    var s1 := Begin(c, states, steps, 0);
    states, steps := states + [s1], steps + [BeginOp(0)];
    assert s1.ops == map[0 := Op({}, 0)] && s1.begun == {0} && |s1.ops| == 1;
    var s2 := Begin(c, states, steps, 1);
    states, steps := states + [s2], steps + [BeginOp(1)];
    assert s2.ops == map[0 := Op({}, 0), 1 := Op({}, 0)] && s2.begun == {0, 1} && |s2.ops| == 2;
    var s3 := Begin(c, states, steps, 2);
    states, steps := states + [s3], steps + [BeginOp(2)];
  }

  lemma StartRun(c: Config, s: Sys)
    requires Init(c.g, s)
    ensures BudgetedRun(c, [s], [])
  {
  }

  /** An operation takes a block's buffer. */
  lemma Take(c: Config, states: seq<Sys>, steps: seq<Step>, o: OpId, b: int) returns (s: Sys)
    requires BudgetedRun(c, states, steps)
    requires o in Last(states).ops && c.g.Home(b)
    requires b in Last(states).cache ==> Last(states).cache[b].holder == None
    ensures BudgetedRun(c, states + [s], steps + [Bread(o, b)])
    ensures s == Last(states).(cache := s.cache) && Holds(s, o, b)
    ensures forall x :: x in s.cache && x != b ==> x in Last(states).cache && s.cache[x] == Last(states).cache[x]
  {
    var last := Last(states);
    RunInv(c, states, steps, |states| - 1);
    InvSane(c, last);
    s := last.(cache := last.cache[b := Seen(last, b).(holder := Some(o))]);
    hide Run, Inv, DiskOk;
    Extend(c, states, steps, Bread(o, b), s);
  }

  /** An operation logs a block it holds and that is not in the list yet. */
  lemma Log(c: Config, states: seq<Sys>, steps: seq<Step>, o: OpId, b: int) returns (s: Sys)
    requires BudgetedRun(c, states, steps)
    requires Holds(Last(states), o, b) && b !in Last(states).lh && !TooBig(c, Last(states)) && c.g.Home(b)
    requires |Last(states).ops[o].logged| < c.maxOp
    ensures BudgetedRun(c, states + [s], steps + [LogWrite(o, b)])
    ensures s.pc == Last(states).pc && s.lh == Last(states).lh + [b] && Holds(s, o, b) && !s.cache[b].dirty
    ensures s.ops == Last(states).ops[o := Op(Last(states).ops[o].logged + {b}, Last(states).ops[o].spent + 1)]
    ensures forall x :: x in s.cache && x != b ==> x in Last(states).cache && s.cache[x] == Last(states).cache[x]
  {
    var last := Last(states);
    RunInv(c, states, steps, |states| - 1);
    InvSane(c, last);
    var buf, op := last.cache[b], last.ops[o];
    s := last.(lh := last.lh + [b], cache := last.cache[b := buf.(dirty := false, pins := buf.pins + 1)],
               ops := last.ops[o := Op(op.logged + {b}, op.spent + 1)],
               cur := last.cur[b := buf.data], openWriters := last.openWriters + {o});
    hide Run, Inv, DiskOk;
    Extend(c, states, steps, LogWrite(o, b), s);
  }

  lemma Release(c: Config, states: seq<Sys>, steps: seq<Step>, o: OpId, b: int) returns (s: Sys)
    requires BudgetedRun(c, states, steps) && Holds(Last(states), o, b) && !Last(states).cache[b].dirty
    ensures BudgetedRun(c, states + [s], steps + [Brelse(o, b)])
    ensures s == Last(states).(cache := Last(states).cache[b := Last(states).cache[b].(holder := None)])
  {
    var last := Last(states);
    RunInv(c, states, steps, |states| - 1);
    InvSane(c, last);
    s := last.(cache := last.cache[b := last.cache[b].(holder := None)]);
    hide Run, Inv, Sane;
    Extend(c, states, steps, Brelse(o, b), s);
  }

  function Turn(c: Config, m: nat): OpId {
    if m < c.maxOp then 0 else if m < 2 * c.maxOp then 1 else 2
  }

  lemma FilledMore(c: Config, s: Sys, m: nat, t: Sys)
    requires Source(c) && Filled(c, s, m) && m < c.g.logSize && t.pc == Idle
    requires var o, b := Turn(c, m), Data(c, m);
             && t.lh == s.lh + [b] && t.ops == s.ops[o := Op(s.ops[o].logged + {b}, s.ops[o].spent + 1)]
             && (forall x :: x in t.cache ==> t.cache[x].holder == None)
    ensures Filled(c, t, m + 1)
  {
    var o, b := Turn(c, m), Data(c, m);
    ShareMore(c, m, 0);
    ShareMore(c, m, 1);
    ShareMore(c, m, 2);
    assert t.ops.Keys == {0, 1, 2};
    hide Share, Turn;
    forall p | p in t.ops ensures |t.ops[p].logged| <= t.ops[p].spent == Share(c, m + 1, p) {
      assert p == 0 || p == 1 || p == 2;
    }
  }

  lemma ShareMore(c: Config, m: nat, o: OpId)
    requires Source(c) && m < c.g.logSize && 0 <= o <= 2
    ensures Share(c, m + 1, o) == if o == Turn(c, m) then Share(c, m, o) + 1 else Share(c, m, o)
    ensures 0 <= Turn(c, m) <= 2
  {
  }

  /** One more block is logged and released. */
  lemma LogOne(c: Config, states: seq<Sys>, steps: seq<Step>, m: nat)
    returns (states': seq<Sys>, steps': seq<Step>)
    requires Source(c) && BudgetedRun(c, states, steps) && Filled(c, Last(states), m)
    requires m < c.g.logSize && m < c.g.size - 1
    ensures BudgetedRun(c, states', steps') && Filled(c, Last(states'), m + 1)
  {
    var o, b, s0 := Turn(c, m), Data(c, m), Last(states);
    assert b !in s0.lh && s0.ops[o].spent < c.maxOp;
    hide BudgetedRun;
    var s1 := Take(c, states, steps, o, b);
    states', steps' := states + [s1], steps + [Bread(o, b)];
    var s2 := Log(c, states', steps', o, b);
    states', steps' := states' + [s2], steps' + [LogWrite(o, b)];
    var s3 := Release(c, states', steps', o, b);
    states', steps' := states' + [s3], steps' + [Brelse(o, b)];
    FilledMore(c, s0, m, s3);
  }

  lemma {:induction false} Fill(c: Config, s: Sys, m: nat) returns (states: seq<Sys>, steps: seq<Step>)
    requires Source(c) && Init(c.g, s) && m <= c.g.logSize && m <= c.g.size - 1
    ensures BudgetedRun(c, states, steps) && Filled(c, Last(states), m)
  {
    if m == 0 {
      states, steps := Start(c, s);
    } else {
      states, steps := Fill(c, s, m - 1);
      states, steps := LogOne(c, states, steps, m - 1);
    }
  }

  /** In state s some operation, within its budget, is about to log a block that is not in
      the list yet. */
  ghost predicate AboutToAppend(c: Config, s: Sys, o: OpId, b: int) {
    Holds(s, o, b) && b !in s.lh && |s.ops[o].logged + {b}| <= c.maxOp
  }

  ghost predicate AppendsNeverPanic(c: Config) {
    forall states, steps, i: nat, o, b ::
      BudgetedRun(c, states, steps) && i < |states| && AboutToAppend(c, states[i], o, b) ==> !TooBig(c, states[i])
  }

  /** log_write's second test, lh.n >= log.size - 1, is stricter than the reservation when
      the log region is not larger than LOGSIZE. Operations that keep their budget are
      safe from the panic if and only if the region has more than LOGSIZE blocks. mkfs
      makes it LOGSIZE blocks (mkfs.c, nlog), so on its disks they are not. */
  lemma AppendsSafeIffLogRegionLarger(c: Config, disk: Disk)
    requires Source(c) && Cleared(c.g, disk)
    ensures AppendsNeverPanic(c) <==> c.g.size > c.g.logSize
  {
    if c.g.size > c.g.logSize {
      forall states, steps, i: nat, o, b |
        BudgetedRun(c, states, steps) && i < |states| && AboutToAppend(c, states[i], o, b)
        ensures !TooBig(c, states[i])
      {
        hide BudgetedRun;
        ReservationHolds(c, states, steps, i, o, b);
      }
    } else {
      PanicRun(c, disk);
    }
  }

  /** With a region of at most LOGSIZE blocks: fill the region, then log one more. */
  lemma PanicRun(c: Config, disk: Disk)
    requires Source(c) && Cleared(c.g, disk) && c.g.size <= c.g.logSize
    ensures !AppendsNeverPanic(c)
  {
    var init := Initial(disk);
    var states, steps := Fill(c, init, c.g.size - 1);
    var m := c.g.size - 1;
    var o, b, last := Turn(c, m), Data(c, m), Last(states);
    assert b !in last.lh && last.ops[o].spent < c.maxOp;
    var s := Take(c, states, steps, o, b);
    var states', steps' := states + [s], steps + [Bread(o, b)];
    hide BudgetedRun;
    assert BudgetedRun(c, states', steps') && states'[|states|] == s && AboutToAppend(c, s, o, b) && TooBig(c, s);
  }

  function Initial(disk: Disk): Sys {
    Sys(disk, map[], [], map[], false, Idle, disk, [disk], 0, 0, [], {}, {}, {})
  }

  /** The test also comes before absorption: an operation that has spent its reservation
      and logs one of its own blocks again panics although nothing would be appended,
      however large the log region is. LogWritesSafeIffBelowBudget says exactly when. */
  lemma AbsorptionCanPanic(c: Config, disk: Disk) returns (states: seq<Sys>, steps: seq<Step>, o: OpId, b: int)
    requires Source(c) && Cleared(c.g, disk) && c.g.size > c.g.logSize
    ensures BudgetedRun(c, states, steps) && Holds(Last(states), o, b)
    ensures b in Last(states).lh && |Last(states).ops[o].logged + {b}| <= c.maxOp
    ensures TooBig(c, Last(states)) && Last(states).ops[o].spent == c.maxOp
  {
    states, steps := Fill(c, Initial(disk), c.g.logSize);
    o, b := 0, Data(c, 0);
    var last := Last(states);
    assert last.lh[0] == b && last.ops[0].logged + {b} == last.ops[0].logged;
    var s := Take(c, states, steps, o, b);
    states, steps := states + [s], steps + [Bread(o, b)];
  }

  /** No operation logs more than k distinct blocks. */
  ghost predicate KeepsTo(c: Config, k: nat, states: seq<Sys>, steps: seq<Step>) {
    Run(c, states, steps) && forall i :: 0 <= i < |steps| ==> StepKeepsTo(k, states[i], steps[i])
  }

  ghost predicate StepKeepsTo(k: nat, s: Sys, step: Step) {
    step.LogWrite? && step.o in s.ops ==> |s.ops[step.o].logged + {step.b}| <= k
  }

  /** In state s some operation is about to log a block, and has then logged at most k. */
  ghost predicate AboutToLog(k: nat, s: Sys, o: OpId, b: int) {
    Holds(s, o, b) && |s.ops[o].logged + {b}| <= k
  }

  /** While operations log at most k distinct blocks, no log_write panics, absorbing or not. */
  ghost predicate LogWritesNeverPanic(c: Config, k: nat) {
    forall states, steps, i: nat, o, b ::
      KeepsTo(c, k, states, steps) && i < |states| && AboutToLog(k, states[i], o, b) ==> !TooBig(c, states[i])
  }

  lemma KeepsToBudget(c: Config, k: nat, states: seq<Sys>, steps: seq<Step>)
    ensures k <= c.maxOp && KeepsTo(c, k, states, steps) ==> BudgetedRun(c, states, steps)
    ensures c.maxOp <= k && BudgetedRun(c, states, steps) ==> KeepsTo(c, k, states, steps)
  {
    hide Next;
    if k <= c.maxOp && KeepsTo(c, k, states, steps) {
      forall i | 0 <= i < |steps| ensures Budgeted(c, states[i], steps[i]) {
        assert StepKeepsTo(k, states[i], steps[i]);
      }
    }
    if c.maxOp <= k && BudgetedRun(c, states, steps) {
      forall i | 0 <= i < |steps| ensures StepKeepsTo(k, states[i], steps[i]) {
        assert Budgeted(c, states[i], steps[i]);
      }
    }
  }

  /** Because of the order of test and absorption, a log region that is large enough makes every
      log_write safe exactly for operations of fewer than MAXOPBLOCKS distinct blocks. */
  lemma LogWritesSafeIffBelowBudget(c: Config, disk: Disk, k: nat)
    requires Source(c) && Cleared(c.g, disk) && c.g.size > c.g.logSize
    ensures LogWritesNeverPanic(c, k) <==> k < c.maxOp
  {
    if k < c.maxOp {
      forall states, steps, i: nat, o, b |
        KeepsTo(c, k, states, steps) && i < |states| && AboutToLog(k, states[i], o, b)
        ensures !TooBig(c, states[i])
      {
        BelowBudget(c, k, states, steps, i, o, b);
      }
    } else {
      var states, steps, o, b := AbsorptionCanPanic(c, disk);
      KeepsToBudget(c, k, states, steps);
      hide KeepsTo, BudgetedRun, TooBig;
      assert AboutToLog(k, states[|states| - 1], o, b);
    }
  }

  lemma BelowBudget(c: Config, k: nat, states: seq<Sys>, steps: seq<Step>, i: nat, o: OpId, b: int)
    requires KeepsTo(c, k, states, steps) && i < |states| && AboutToLog(k, states[i], o, b) && k < c.maxOp && c.g.size > c.g.logSize
    ensures !TooBig(c, states[i])
  {
    hide KeepsTo, BudgetedRun, TooBig, Inv;
    KeepsToBudget(c, k, states, steps);
    RunSpace(c, states, steps, i);
    ReservationHolds(c, states, steps, i, o, b);
    var logged := states[i].ops[o].logged;
    assert |logged| <= |logged + {b}| by {
      if b in logged {
        assert logged + {b} == logged;
      }
    }
  }
}
