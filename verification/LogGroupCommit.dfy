/** Group commit (kernel/log.c) as a transition system: file-system operations that
    bread, modify, log_write and release buffers, interleaved with each other, with the
    commit that the last end_op starts, with buffer recycling, and with crashes and
    recoveries, one disk write per step. */
module LogGroupCommit {
  import opened LogFormat

  type OpId = nat

  datatype Option<T> = None | Some(value: T)

  /** A cached home block: `pins` counts bpin minus bunpin, `holder` has it locked between
      bread and brelse, `dirty` means modified since the last log_write. */
  datatype Buf = Buf(data: Block, pins: nat, holder: Option<OpId>, dirty: bool)

  /** An operation between begin_op and end_op: the distinct blocks it has logged, and how
      many of them it was the first to log since the last commit. */
  datatype Op = Op(logged: set<int>, spent: nat)

  /** Commit(k, h): end_op is committing list h and has done k disk writes.
      Recover(k, h): recover_from_log read list h and has done k disk writes. */
  datatype Pc = Idle | Commit(k: nat, h: seq<int>) | Recover(k: nat, h: seq<int>)

  /** The machine, then the history it is judged by: `cur` is the state all log_writes so
      far add up to, `snaps[i]` the state after i closed groups, `writers[i]` the operations
      that logged something in group i, `durable` the groups whose header reached the disk,
      `completed` the groups whose commit has finished. */
  datatype Sys = Sys(
    disk: Disk, cache: map<int, Buf>, lh: seq<int>, ops: map<OpId, Op>, committing: bool, pc: Pc,
    cur: Disk, snaps: seq<Disk>, durable: nat, completed: nat,
    writers: seq<set<OpId>>, openWriters: set<OpId>, ended: set<OpId>, begun: set<OpId>)

  datatype Step =
    | BeginOp(o: OpId)
    | Bread(o: OpId, b: int)
    | Evict(b: int)
    | Modify(o: OpId, b: int, data: Block)
    | LogWrite(o: OpId, b: int)
    | Brelse(o: OpId, b: int)
    | EndOp(o: OpId)
    | CommitWrite
    | CommitEnd
    | Crash
    | RecoverWrite
    | RecoverEnd

  /** `maxOp` is MAXOPBLOCKS. */
  datatype Config = Config(g: Layout, maxOp: nat)

  ghost predicate Init(g: Layout, s: Sys) {
    && Cleared(g, s.disk) && s.cache == map[] && s.lh == [] && s.ops == map[]
    && !s.committing && s.pc == Idle
    && s.cur == s.disk && s.snaps == [s.disk] && s.durable == 0 && s.completed == 0
    && s.writers == [] && s.openWriters == {} && s.ended == {} && s.begun == {}
  }

  predicate Holds(s: Sys, o: OpId, b: int) {
    o in s.ops && b in s.cache && s.cache[b].holder == Some(o)
  }

  /** Disk writes in the commit of h: none for an empty transaction. */
  function CommitLength(h: seq<int>): nat {
    if h == [] then 0 else 2 * |h| + 2
  }

  /** What bread yields for block b. */
  function Seen(s: Sys, b: int): Buf
    requires 0 <= b < |s.disk|
  {
    if b in s.cache then s.cache[b] else Buf(s.disk[b], 0, None, false)
  }

  /** The part of the invariant that makes the writes below meaningful. */
  ghost predicate Sane(c: Config, s: Sys) {
    && DiskOk(c.g, s.disk) && |s.cur| == |s.disk|
    && 0 <= s.completed <= s.durable < |s.snaps| && |s.writers| + 1 == |s.snaps|
    && (s.pc.Commit? ==> GoodList(c.g, s.pc.h))
    && (s.pc.Recover? ==> GoodList(c.g, s.pc.h))
  }

  // ---- The steps ----

  /** The space test of begin_op. */
  predicate Room(c: Config, n: nat, outstanding: nat) {
    n + (outstanding + 1) * c.maxOp <= c.g.logSize
  }

  /** begin_op, past its two reasons to sleep. */
  ghost predicate BeginStep(c: Config, s: Sys, o: OpId, s': Sys) {
    && s.pc == Idle && !s.committing && o !in s.begun
    && Room(c, |s.lh|, |s.ops|)
    && s' == s.(ops := s.ops[o := Op({}, 0)], begun := s.begun + {o})
  }

  ghost predicate BreadStep(c: Config, s: Sys, o: OpId, b: int, s': Sys)
    requires Sane(c, s)
  {
    && o in s.ops && c.g.Home(b) && Seen(s, b).holder == None
    && s' == s.(cache := s.cache[b := Seen(s, b).(holder := Some(o))])
  }

  /** bget recycles a buffer whose refcnt is zero. */
  ghost predicate EvictStep(s: Sys, b: int, s': Sys) {
    && b in s.cache && s.cache[b].pins == 0 && s.cache[b].holder == None
    && s' == s.(cache := s.cache - {b})
  }

  ghost predicate ModifyStep(s: Sys, o: OpId, b: int, data: Block, s': Sys) {
    && Holds(s, o, b)
    && s' == s.(cache := s.cache[b := s.cache[b].(data := data, dirty := true)])
  }

  /** log_write panics on these states: the test comes before absorption. */
  predicate TooBig(c: Config, s: Sys) {
    |s.lh| >= c.g.logSize || |s.lh| >= c.g.size - 1
  }

  ghost predicate LogWriteStep(c: Config, s: Sys, o: OpId, b: int, s': Sys)
    requires Sane(c, s)
  {
    && Holds(s, o, b) && c.g.Home(b) && !TooBig(c, s)
    && var isNew := b !in s.lh;
       var buf := s.cache[b];
       var op := s.ops[o];
       s' == s.(
         lh := if isNew then s.lh + [b] else s.lh,
         cache := s.cache[b := buf.(dirty := false, pins := if isNew then buf.pins + 1 else buf.pins)],
         ops := s.ops[o := Op(op.logged + {b}, if isNew then op.spent + 1 else op.spent)],
         cur := s.cur[b := buf.data],
         openWriters := s.openWriters + {o})
  }

  /** brelse, by a client that logs what it modified before letting go. */
  ghost predicate BrelseStep(s: Sys, o: OpId, b: int, s': Sys) {
    && Holds(s, o, b) && !s.cache[b].dirty
    && s' == s.(cache := s.cache[b := s.cache[b].(holder := None)])
  }

  /** end_op up to the release of log.lock: the last operation out closes the group. */
  ghost predicate EndStep(s: Sys, o: OpId, s': Sys) {
    && o in s.ops && (forall b :: b in s.cache ==> s.cache[b].holder != Some(o))
    && var rest := s.ops - {o};
       if rest != map[] then
         s' == s.(ops := rest, ended := s.ended + {o})
       else
         s' == s.(ops := rest, ended := s.ended + {o}, committing := true, pc := Commit(0, s.lh),
                  snaps := s.snaps + [s.cur], writers := s.writers + [s.openWriters], openWriters := {},
                  durable := if s.lh == [] then s.durable + 1 else s.durable)
  }

  /** The next disk write of commit. */
  ghost predicate CommitStep(c: Config, s: Sys, s': Sys)
    requires Sane(c, s)
  {
    && s.pc.Commit? && s.pc.k < CommitLength(s.pc.h)
    && var h, k, n := s.pc.h, s.pc.k, |s.pc.h|;
       var next := Commit(k + 1, h);
       if k < n then
         s' == s.(pc := next, disk := s.disk[c.g.start + 1 + k := Seen(s, h[k]).data])
       else if k == n then
         s' == s.(pc := next, disk := Head(c.g, s.disk, h), durable := s.durable + 1)
       else if k <= 2 * n then
         var i := k - n - 1;
         var buf := Seen(s, h[i]);
         s' == s.(pc := next, disk := Install(c.g, s.disk, h, i),
                  cache := s.cache[h[i] := buf.(data := s.disk[c.g.start + 1 + i],
                                                pins := if buf.pins > 0 then buf.pins - 1 else 0)])
       else
         s' == s.(pc := next, disk := Head(c.g, s.disk, []), lh := [])
  }

  ghost predicate CommitEndStep(s: Sys, s': Sys) {
    && s.pc.Commit? && s.pc.k == CommitLength(s.pc.h)
    && s' == s.(pc := Idle, committing := false, completed := s.durable)
  }

  /** Power fails, memory is lost, and recover_from_log reads the header. Groups that had
      not reached the disk are forgotten. */
  ghost predicate CrashStep(c: Config, s: Sys, s': Sys)
    requires Sane(c, s)
  {
    s' == s.(cache := map[], lh := [], ops := map[], committing := false,
             pc := Recover(0, DiskList(c.g, s.disk)),
             cur := s.snaps[s.durable], snaps := s.snaps[..s.durable + 1],
             writers := s.writers[..s.durable], openWriters := {})
  }

  ghost predicate RecoverStep(c: Config, s: Sys, s': Sys)
    requires Sane(c, s)
  {
    && s.pc.Recover? && s.pc.k <= |s.pc.h|
    && var next := Recover(s.pc.k + 1, s.pc.h);
       if s.pc.k < |s.pc.h| then s' == s.(pc := next, disk := Install(c.g, s.disk, s.pc.h, s.pc.k))
       else s' == s.(pc := next, disk := Head(c.g, s.disk, []))
  }

  ghost predicate RecoverEndStep(s: Sys, s': Sys) {
    && s.pc.Recover? && s.pc.k == |s.pc.h| + 1
    && s' == s.(pc := Idle, completed := s.durable)
  }

  ghost predicate Next(c: Config, s: Sys, step: Step, s': Sys) {
    && Sane(c, s)
    && match step
       case BeginOp(o) => BeginStep(c, s, o, s')
       case Bread(o, b) => BreadStep(c, s, o, b, s')
       case Evict(b) => EvictStep(s, b, s')
       case Modify(o, b, data) => ModifyStep(s, o, b, data, s')
       case LogWrite(o, b) => LogWriteStep(c, s, o, b, s')
       case Brelse(o, b) => BrelseStep(s, o, b, s')
       case EndOp(o) => EndStep(s, o, s')
       case CommitWrite => CommitStep(c, s, s')
       case CommitEnd => CommitEndStep(s, s')
       case Crash => CrashStep(c, s, s')
       case RecoverWrite => RecoverStep(c, s, s')
       case RecoverEnd => RecoverEndStep(s, s')
  }

  /** A run: states.. joined by steps.. . */
  ghost predicate Run(c: Config, states: seq<Sys>, steps: seq<Step>) {
    && |states| == |steps| + 1 && Init(c.g, states[0])
    && forall i :: 0 <= i < |steps| ==> Next(c, states[i], steps[i], states[i + 1])
  }

  // ---- The invariant ----

  /** Blocks whose buffer must be pinned: logged and not yet installed. */
  ghost function MustPin(lh: seq<int>, pc: Pc): seq<int> {
    match pc
    case Idle => lh
    case Commit(k, h) => if k <= |h| then h else if k <= 2 * |h| + 1 then h[k - |h| - 1..] else []
    case Recover(_, _) => []
  }

  /** The disk recovers to the last durable snapshot, and each phase of commit and of
      recovery has put in place what it was supposed to. */
  ghost predicate DiskInv(c: Config, disk: Disk, lh: seq<int>, committing: bool, pc: Pc,
                          cur: Disk, snaps: seq<Disk>, durable: nat)
  {
    && durable < |snaps| && RecoversTo(c.g, disk, snaps[durable]) && |cur| == |disk|
    && (forall i :: 0 <= i < |snaps| ==> |snaps[i]| == |disk|)
    && GoodList(c.g, lh)
    && (committing <==> pc.Commit?)
    && var last := |snaps| - 1;
       match pc
       case Idle =>
         durable == last && Cleared(c.g, disk) && DiffersOnlyIn(c.g, lh, snaps[last], cur)
       case Commit(k, h) =>
         && GoodList(c.g, h) && cur == snaps[last] && k <= CommitLength(h)
         && lh == (if k <= 2 * |h| + 1 then h else [])
         && CommitDisk(c, disk, k, h, cur, snaps, durable)
       case Recover(k, h) =>
         && GoodList(c.g, h) && lh == [] && durable == last && cur == snaps[last] && k <= |h| + 1
         && (if k <= |h| then DiskList(c.g, disk) == h && InPlace(disk, h, k, cur)
             else Cleared(c.g, disk))
  }

  ghost predicate InPlace(d: Disk, h: seq<int>, k: nat, st: Disk) {
    k <= |h| && forall i :: 0 <= i < k ==> 0 <= h[i] < |d| && h[i] < |st| && d[h[i]] == st[h[i]]
  }

  ghost predicate InLogArea(g: Layout, d: Disk, h: seq<int>, k: nat, st: Disk) {
    && k <= |h| && g.start + 1 + k <= |d|
    && forall i :: 0 <= i < k ==> 0 <= h[i] < |st| && d[g.start + 1 + i] == st[h[i]]
  }

  ghost predicate CommitDisk(c: Config, disk: Disk, k: nat, h: seq<int>, cur: Disk, snaps: seq<Disk>, durable: nat)
    requires DiskOk(c.g, disk) && durable < |snaps|
  {
    if h == [] then durable == |snaps| - 1 && Cleared(c.g, disk)
    else if k <= |h| then
      && durable == |snaps| - 2 && Cleared(c.g, disk)
      && DiffersOnlyIn(c.g, h, snaps[durable], cur) && InLogArea(c.g, disk, h, k, cur)
    else if k <= 2 * |h| + 1 then
      durable == |snaps| - 1 && DiskList(c.g, disk) == h && InPlace(disk, h, k - |h| - 1, cur)
    else
      durable == |snaps| - 1 && Cleared(c.g, disk)
  }

  /** A clean buffer shows the current contents; exactly the logged, uninstalled blocks are
      pinned, once each; locked buffers belong to running operations. */
  ghost predicate CacheInv(g: Layout, cache: map<int, Buf>, pinned: seq<int>, cur: Disk, running: set<OpId>) {
    && (forall b :: b in cache ==>
          && g.Home(b) && b < |cur|
          && (cache[b].dirty ==> cache[b].holder.Some?)
          && (!cache[b].dirty ==> cache[b].data == cur[b])
          && (cache[b].holder.Some? ==> cache[b].holder.value in running)
          && cache[b].pins == (if b in pinned then 1 else 0))
    && (forall b :: b in pinned ==> b in cache)
  }

  ghost predicate HistoryInv(snaps: nat, running: set<OpId>, writers: seq<set<OpId>>,
                             openWriters: set<OpId>, ended: set<OpId>, begun: set<OpId>)
  {
    && |writers| + 1 == snaps
    && running <= begun && ended <= begun && running !! ended
    && openWriters <= running + ended
    && (forall i :: 0 <= i < |writers| ==> writers[i] <= ended)
    && (forall i, j :: 0 <= i < j < |writers| ==> writers[i] !! writers[j])
    && (forall i :: 0 <= i < |writers| ==> writers[i] !! openWriters)
  }

  ghost predicate Inv(c: Config, s: Sys) {
    && s.completed <= s.durable
    && DiskInv(c, s.disk, s.lh, s.committing, s.pc, s.cur, s.snaps, s.durable)
    && CacheInv(c.g, s.cache, MustPin(s.lh, s.pc), s.cur, s.ops.Keys)
    && (s.ops != map[] ==> s.pc == Idle)
    && HistoryInv(|s.snaps|, s.ops.Keys, s.writers, s.openWriters, s.ended, s.begun)
  }

  lemma InitInv(c: Config, s: Sys)
    requires Init(c.g, s)
    ensures Inv(c, s)
  {
  }

  lemma MoreRunning(g: Layout, cache: map<int, Buf>, pinned: seq<int>, cur: Disk, running: set<OpId>, o: OpId)
    requires CacheInv(g, cache, pinned, cur, running)
    ensures CacheInv(g, cache, pinned, cur, running + {o})
  {
  }

  lemma BeginHistory(snaps: nat, running: set<OpId>, writers: seq<set<OpId>>, openWriters: set<OpId>, ended: set<OpId>, begun: set<OpId>, o: OpId)
    requires HistoryInv(snaps, running, writers, openWriters, ended, begun) && o !in begun
    ensures HistoryInv(snaps, running + {o}, writers, openWriters, ended, begun + {o})
  {
  }

  lemma BeginInv(c: Config, s: Sys, o: OpId, s': Sys)
    requires Inv(c, s) && BeginStep(c, s, o, s')
    ensures Inv(c, s')
  {
    hide DiskInv, Room, CacheInv, HistoryInv, MustPin;
    assert s'.ops.Keys == s.ops.Keys + {o};
    BeginHistory(|s.snaps|, s.ops.Keys, s.writers, s.openWriters, s.ended, s.begun, o);
    MoreRunning(c.g, s.cache, MustPin(s.lh, s.pc), s.cur, s.ops.Keys, o);
  }

  lemma BreadInv(c: Config, s: Sys, o: OpId, b: int, s': Sys)
    requires Inv(c, s) && BreadStep(c, s, o, b, s')
    ensures Inv(c, s')
  {
    assert b !in s.cache ==> s.disk[b] == s.cur[b];
    hide DiskInv;
  }

  lemma EvictInv(c: Config, s: Sys, b: int, s': Sys)
    requires Inv(c, s) && EvictStep(s, b, s')
    ensures Inv(c, s')
  {
    hide DiskInv;
  }

  lemma ModifyInv(c: Config, s: Sys, o: OpId, b: int, data: Block, s': Sys)
    requires Inv(c, s) && ModifyStep(s, o, b, data, s')
    ensures Inv(c, s')
  {
    hide DiskInv;
  }

  lemma LogWriteInv(c: Config, s: Sys, o: OpId, b: int, s': Sys)
    requires Inv(c, s) && LogWriteStep(c, s, o, b, s')
    ensures Inv(c, s')
  {
  }

  lemma BrelseInv(c: Config, s: Sys, o: OpId, b: int, s': Sys)
    requires Inv(c, s) && BrelseStep(s, o, b, s')
    ensures Inv(c, s')
  {
    hide DiskInv;
  }

  lemma EndInv(c: Config, s: Sys, o: OpId, s': Sys)
    requires Inv(c, s) && EndStep(s, o, s')
    ensures Inv(c, s')
  {
  }

  /** write_log: no buffer is dirty or unpinned, so the log area gets the new contents. */
  lemma CommitLogInv(c: Config, s: Sys, s': Sys)
    requires Inv(c, s) && CommitStep(c, s, s') && s.pc.k < |s.pc.h|
    ensures Inv(c, s')
  {
    var h, k := s.pc.h, s.pc.k;
    assert h[k] in MustPin(s.lh, s.pc);
    assert Seen(s, h[k]).data == s.cur[h[k]];
    LogAreaInvisible(c.g, s.disk, s.snaps[s.durable], k, s.cur[h[k]]);
    hide RecoversTo, GoodList, DiskOk, Cleared, DiffersOnlyIn;
  }

  /** write_head: the commit point. */
  lemma CommitHeadInv(c: Config, s: Sys, s': Sys)
    requires Inv(c, s) && CommitStep(c, s, s') && s.pc.k == |s.pc.h|
    ensures Inv(c, s')
  {
    hide DiskInv, CacheInv, HistoryInv, Sane, DiskOk, Head;
    var h := s.pc.h;
    assert s.pc == Commit(|h|, h) && h[0..] == h;
    CommitHeadDisk(c, s.disk, s.lh, s.committing, h, s.cur, s.snaps, s.durable);
  }

  lemma CommitHeadDisk(c: Config, d: Disk, lh: seq<int>, committing: bool, h: seq<int>, cur: Disk, snaps: seq<Disk>, durable: nat)
    requires DiskInv(c, d, lh, committing, Commit(|h|, h), cur, snaps, durable) && h != []
    ensures |h| <= c.g.logSize && c.g.Valid() && |d| == c.g.nblocks
    ensures DiskInv(c, Head(c.g, d, h), lh, committing, Commit(|h| + 1, h), cur, snaps, durable + 1)
  {
    CommitPoint(c.g, d, h, snaps[durable], cur);
    hide RecoversTo, GoodList, Cleared, DiffersOnlyIn;
  }

  /** Installing one more block, in commit or in recovery. */
  lemma InstallMore(g: Layout, d: Disk, h: seq<int>, i: nat, st: Disk)
    requires RecoversTo(g, d, st) && DiskList(g, d) == h && i < |h| && InPlace(d, h, i, st)
    ensures d[g.start + 1 + i] == st[h[i]]
    ensures var e := Install(g, d, h, i); RecoversTo(g, e, st) && DiskList(g, e) == h && InPlace(e, h, i + 1, st)
  {
    InstallKeeps(g, d, st, i);
  }

  lemma UnpinInstalled(g: Layout, cache: map<int, Buf>, h: seq<int>, i: nat, cur: Disk, data: Block)
    requires i < |h| && CacheInv(g, cache, h[i..], cur, {}) && Distinct(h) && 0 <= h[i] < |cur| && data == cur[h[i]]
    ensures h[i] in cache && cache[h[i]].pins == 1
    ensures CacheInv(g, cache[h[i] := cache[h[i]].(data := data, pins := 0)], h[i + 1..], cur, {})
  {
    assert h[i..] == [h[i]] + h[i + 1..];
    assert h[i] in h[i..] && h[i] !in h[i + 1..];
  }

  lemma CommitInstallReady(c: Config, d: Disk, lh: seq<int>, committing: bool, k: nat, h: seq<int>,
                           cur: Disk, snaps: seq<Disk>, durable: nat)
    requires DiskInv(c, d, lh, committing, Commit(k, h), cur, snaps, durable) && |h| < k <= 2 * |h|
    ensures RecoversTo(c.g, d, cur) && DiskList(c.g, d) == h && GoodList(c.g, h)
    ensures InPlace(d, h, k - |h| - 1, cur) && c.g.start + |h| < |d|
  {
    assert CommitDisk(c, d, k, h, cur, snaps, durable);
  }

  lemma CommitInstallDisk(c: Config, d: Disk, lh: seq<int>, committing: bool, k: nat, h: seq<int>, d': Disk,
                          cur: Disk, snaps: seq<Disk>, durable: nat)
    requires DiskInv(c, d, lh, committing, Commit(k, h), cur, snaps, durable) && |h| < k <= 2 * |h|
    requires |d'| == |d| && RecoversTo(c.g, d', cur) && DiskList(c.g, d') == h && InPlace(d', h, k - |h|, cur)
    ensures DiskInv(c, d', lh, committing, Commit(k + 1, h), cur, snaps, durable)
  {
    hide RecoversTo, GoodList, InPlace, DiffersOnlyIn, Cleared, InLogArea;
  }

  lemma CommitInstallDiskInv(c: Config, s: Sys, s': Sys)
    requires Inv(c, s) && CommitStep(c, s, s') && |s.pc.h| < s.pc.k <= 2 * |s.pc.h|
    ensures DiskInv(c, s'.disk, s'.lh, s'.committing, s'.pc, s'.cur, s'.snaps, s'.durable)
  {
    hide DiskInv, CacheInv, HistoryInv, DiskOk, Sane, Distinct, InPlace, RecoversTo, Seen;
    var h, k, i := s.pc.h, s.pc.k, s.pc.k - |s.pc.h| - 1;
    assert s.pc == Commit(k, h);
    CommitInstallReady(c, s.disk, s.lh, s.committing, k, h, s.cur, s.snaps, s.durable);
    InstallMore(c.g, s.disk, h, i, s.cur);
    CommitInstallDisk(c, s.disk, s.lh, s.committing, k, h, s'.disk, s.cur, s.snaps, s.durable);
  }

  /** What the step installs: the current contents of a block of the group. */
  lemma CommitInstallData(c: Config, d: Disk, lh: seq<int>, committing: bool, k: nat, h: seq<int>, cur: Disk, snaps: seq<Disk>, durable: nat)
    requires DiskInv(c, d, lh, committing, Commit(k, h), cur, snaps, durable) && |h| < k <= 2 * |h|
    ensures var i := k - |h| - 1; Distinct(h) && 0 <= h[i] < |cur| && c.g.start + 1 + i < |d| && d[c.g.start + 1 + i] == cur[h[i]]
  {
    hide DiskInv, InPlace;
    CommitInstallReady(c, d, lh, committing, k, h, cur, snaps, durable);
    assert c.g.Home(h[k - |h| - 1]);
  }

  lemma CommitInstallCacheInv(c: Config, s: Sys, s': Sys)
    requires Inv(c, s) && CommitStep(c, s, s') && |s.pc.h| < s.pc.k <= 2 * |s.pc.h|
    ensures CacheInv(c.g, s'.cache, MustPin(s'.lh, s'.pc), s'.cur, s'.ops.Keys)
  {
    hide DiskInv, CacheInv, HistoryInv, DiskOk, Sane, Distinct, Install, Head, GoodList;
    var h, k, i := s.pc.h, s.pc.k, s.pc.k - |s.pc.h| - 1;
    assert s.pc == Commit(k, h);
    CommitInstallData(c, s.disk, s.lh, s.committing, k, h, s.cur, s.snaps, s.durable);
    assert s.ops == map[];
    assert s.ops.Keys == {};
    UnpinInstalled(c.g, s.cache, h, i, s.cur, s.disk[c.g.start + 1 + i]);
  }

  /** install_trans(0): a block is unpinned in the step that puts it in place. */
  lemma CommitInstallInv(c: Config, s: Sys, s': Sys)
    requires Inv(c, s) && CommitStep(c, s, s') && |s.pc.h| < s.pc.k <= 2 * |s.pc.h|
    ensures Inv(c, s')
  {
    hide DiskInv, CacheInv, HistoryInv, DiskOk, Sane, RecoversTo, MustPin;
    CommitInstallDiskInv(c, s, s');
    CommitInstallCacheInv(c, s, s');
  }

  /** The last write_head: everything is in place, so the log may forget. */
  lemma CommitClearInv(c: Config, s: Sys, s': Sys)
    requires Inv(c, s) && CommitStep(c, s, s') && s.pc.k == 2 * |s.pc.h| + 1
    ensures Inv(c, s')
  {
    hide DiskInv, CacheInv, HistoryInv, Sane, DiskOk, Head;
    var h := s.pc.h;
    assert s.pc == Commit(2 * |h| + 1, h) && h[|h|..] == [];
    CommitClearDisk(c, s.disk, s.lh, s.committing, h, s.cur, s.snaps, s.durable);
  }

  lemma CommitClearDisk(c: Config, d: Disk, lh: seq<int>, committing: bool, h: seq<int>, cur: Disk, snaps: seq<Disk>, durable: nat)
    requires DiskInv(c, d, lh, committing, Commit(2 * |h| + 1, h), cur, snaps, durable) && h != []
    ensures c.g.Valid() && |d| == c.g.nblocks
    ensures DiskInv(c, Head(c.g, d, []), [], committing, Commit(2 * |h| + 2, h), cur, snaps, durable)
  {
    ClearKeeps(c.g, d, cur);
    hide RecoversTo, Cleared, DiffersOnlyIn;
  }

  lemma CommitInv(c: Config, s: Sys, s': Sys)
    requires Inv(c, s) && CommitStep(c, s, s')
    ensures Inv(c, s')
  {
    if s.pc.k < |s.pc.h| {
      CommitLogInv(c, s, s');
    } else if s.pc.k == |s.pc.h| {
      CommitHeadInv(c, s, s');
    } else if s.pc.k <= 2 * |s.pc.h| {
      CommitInstallInv(c, s, s');
    } else {
      CommitClearInv(c, s, s');
    }
  }

  lemma CommitEndInv(c: Config, s: Sys, s': Sys)
    requires Inv(c, s) && CommitEndStep(s, s')
    ensures Inv(c, s')
  {
  }

  lemma CrashInv(c: Config, s: Sys, s': Sys)
    requires Inv(c, s) && CrashStep(c, s, s')
    ensures Inv(c, s')
  {
  }

  lemma RecoverDisk(c: Config, d: Disk, h: seq<int>, k: nat, cur: Disk, snaps: seq<Disk>, durable: nat)
    requires DiskInv(c, d, [], false, Recover(k, h), cur, snaps, durable) && k <= |h|
    ensures DiskInv(c, if k < |h| then Install(c.g, d, h, k) else Head(c.g, d, []), [], false,
                    Recover(k + 1, h), cur, snaps, durable)
  {
    if k < |h| {
      InstallMore(c.g, d, h, k, cur);
    } else {
      ClearKeeps(c.g, d, cur);
    }
  }

  lemma RecoverInv(c: Config, s: Sys, s': Sys)
    requires Inv(c, s) && RecoverStep(c, s, s')
    ensures Inv(c, s')
  {
    hide DiskInv, CacheInv, HistoryInv, Sane, DiskOk, Head, Install;
    RecoverQuiet(c, s);
    assert s.pc == Recover(s.pc.k, s.pc.h);
    RecoverDisk(c, s.disk, s.pc.h, s.pc.k, s.cur, s.snaps, s.durable);
  }

  lemma RecoverQuiet(c: Config, s: Sys)
    requires Inv(c, s) && s.pc.Recover?
    ensures s.lh == [] && !s.committing
  {
    hide CacheInv, HistoryInv;
  }

  lemma RecoverEndInv(c: Config, s: Sys, s': Sys)
    requires Inv(c, s) && RecoverEndStep(s, s')
    ensures Inv(c, s')
  {
  }

  lemma NextInv(c: Config, s: Sys, step: Step, s': Sys)
    requires Inv(c, s) && Next(c, s, step, s')
    ensures Inv(c, s')
  {
    match step
    case BeginOp(o) => BeginInv(c, s, o, s');
    case Bread(o, b) => BreadInv(c, s, o, b, s');
    case Evict(b) => EvictInv(c, s, b, s');
    case Modify(o, b, data) => ModifyInv(c, s, o, b, data, s');
    case LogWrite(o, b) => LogWriteInv(c, s, o, b, s');
    case Brelse(o, b) => BrelseInv(c, s, o, b, s');
    case EndOp(o) => EndInv(c, s, o, s');
    case CommitWrite => CommitInv(c, s, s');
    case CommitEnd => CommitEndInv(c, s, s');
    case Crash => CrashInv(c, s, s');
    case RecoverWrite => RecoverInv(c, s, s');
    case RecoverEnd => RecoverEndInv(c, s, s');
  }

  lemma {:induction false} RunInv(c: Config, states: seq<Sys>, steps: seq<Step>, i: nat)
    requires Run(c, states, steps) && i < |states|
    ensures Inv(c, states[i])
  {
    if i == 0 {
      InitInv(c, states[0]);
    } else {
      RunInv(c, states, steps, i - 1);
      hide Inv;
      NextInv(c, states[i - 1], steps[i - 1], states[i]);
    }
  }

  /** Group-commit durability. In every state of every run, recovering the disk as it is
      gives exactly the state after the first `durable` closed groups: never less than
      every group whose commit completed, never part of a group. Every operation in a
      closed group has ended, and no operation is spread over two groups. Every block that
      is logged and not installed is in the cache, pinned. */
  lemma GroupCommitDurability(c: Config, states: seq<Sys>, steps: seq<Step>, i: nat)
    requires Run(c, states, steps) && i < |states|
    ensures var s := states[i];
            && DiskOk(c.g, s.disk) && 0 <= s.completed <= s.durable < |s.snaps|
            && SameHome(c.g, Recovered(c.g, s.disk), s.snaps[s.durable])
            && |s.writers| + 1 == |s.snaps|
            && (forall j :: 0 <= j < |s.writers| ==> s.writers[j] <= s.ended && s.writers[j] !! s.ops.Keys)
            && (forall j, k :: 0 <= j < k < |s.writers| ==> s.writers[j] !! s.writers[k])
            && (forall b :: b in MustPin(s.lh, s.pc) ==> b in s.cache && s.cache[b].pins == 1)
  {
    RunInv(c, states, steps, i);
    RecoversToIffRecovered(c.g, states[i].disk, states[i].snaps[states[i].durable]);
  }

  /** What the cache serves is what the operations wrote: bread, in any state of any run,
      yields the block's current contents, however the buffer came and went. */
  lemma BreadSeesCurrent(c: Config, states: seq<Sys>, steps: seq<Step>, i: nat)
    requires Run(c, states, steps) && i < |steps| && steps[i].Bread?
    ensures var b := steps[i].b;
            && 0 <= b < |states[i].cur|
            && b in states[i + 1].cache && states[i + 1].cache[b].data == states[i].cur[b]
  {
    RunInv(c, states, steps, i);
    RunInv(c, states, steps, i + 1);
    var s := states[i];
    assert Next(c, s, steps[i], states[i + 1]);
    assert s.pc == Idle;
  }

  /** What is durable stays: t has every durable group of s, as it was. */
  ghost predicate Outlives(s: Sys, t: Sys) {
    && s.completed <= t.completed && s.durable <= t.durable < |t.snaps| == |t.writers| + 1
    && s.durable < |s.snaps| == |s.writers| + 1
    && t.snaps[..s.durable + 1] == s.snaps[..s.durable + 1] && t.writers[..s.durable] == s.writers[..s.durable]
  }

  lemma DurableFacts(c: Config, s: Sys)
    requires Inv(c, s)
    ensures s.completed <= s.durable < |s.snaps| == |s.writers| + 1
  {
    hide CacheInv;
  }

  lemma StepOutlives(c: Config, s: Sys, step: Step, s': Sys)
    requires Inv(c, s) && Inv(c, s') && Next(c, s, step, s')
    ensures Outlives(s, s')
  {
    hide Inv, Sane, Install, Head, Room, Seen, DiskList;
    DurableFacts(c, s);
    DurableFacts(c, s');
  }

  /** Durability lasts: from any state of a run to any later one, through commits, crashes and
      recoveries, no durable group is lost or changed. */
  lemma {:induction false} DurabilityLasts(c: Config, states: seq<Sys>, steps: seq<Step>, i: nat, j: nat)
    requires Run(c, states, steps) && i <= j < |states|
    ensures Outlives(states[i], states[j])
    decreases j
  {
    hide Inv, Next, Init;
    RunInv(c, states, steps, j);
    if i == j {
      DurableFacts(c, states[j]);
    } else {
      RunInv(c, states, steps, j - 1);
      DurabilityLasts(c, states, steps, i, j - 1);
      assert Next(c, states[j - 1], steps[j - 1], states[j - 1 + 1]);
      StepOutlives(c, states[j - 1], steps[j - 1], states[j]);
      OutlivesTrans(states[i], states[j - 1], states[j]);
    }
  }

  lemma OutlivesTrans(s: Sys, t: Sys, u: Sys)
    requires Outlives(s, t) && Outlives(t, u)
    ensures Outlives(s, u)
  {
    assert u.snaps[..s.durable + 1] == u.snaps[..t.durable + 1][..s.durable + 1];
    assert t.snaps[..s.durable + 1] == t.snaps[..t.durable + 1][..s.durable + 1];
    assert u.writers[..s.durable] == u.writers[..t.durable][..s.durable];
    assert t.writers[..s.durable] == t.writers[..t.durable][..s.durable];
  }
}
