/** kernel/virtio_disk.c as code over the queue in memory. Each method runs under
    vdisk_lock; the device may run at any point, which DeviceRuns stands for. */
module VirtioDisk {
  import opened VirtQueue

  class Disk {
    const n: int                       // NUM
    var free: seq<bool>
    var desc: seq<Desc>
    var ops: seq<Cmd>
    var infoB: seq<Option<int>>
    var status: seq<int>
    var avail: seq<int>
    var availIdx: int
    var used: seq<int>
    var usedIdx: int
    var seenIdx: int                   // disk.used_idx
    var devIdx: int                    // how far the device has read the avail ring
    var owned: set<int>                // buffers whose b->disk is 1
    var reqs: map<int, Req>            // what requesters and device know of the requests in flight
    ghost var owner: map<int, int>
    ghost var subs: seq<int>
    ghost var comps: seq<int>
    ghost var taken: nat
    ghost var seen: nat

    ghost function State(): Q
      reads this
    {
      Q(free, desc, ops, infoB, status, avail, availIdx, used, usedIdx, seenIdx, devIdx, owned,
        reqs, owner, subs, comps, taken, seen)
    }

    ghost predicate Valid()
      reads this
    {
      Ok(n, State())
    }

    /** The queue as virtio_disk_init leaves it. */
    constructor (num: int)
      requires 0 < num <= WRAP && WRAP % num == 0
      ensures n == num && Valid() && reqs == map[] && Init(n, State())
    {
      n := num;
      free, desc, ops := seq(num, i => true), seq(num, i => ZERO), seq(num, i => Cmd(false, 0));
      infoB, status := seq(num, i => None), seq(num, i => 0);
      avail, used := seq(num, i => 0), seq(num, i => 0);
      availIdx, usedIdx, seenIdx, devIdx := 0, 0, 0, 0;
      owned, reqs, owner, subs, comps, taken, seen := {}, map[], map[], [], [], 0, 0;
    }

    /** alloc_desc: the lowest free descriptor, marked in use, or -1. */
    method AllocDesc() returns (d: int)
      modifies this`free
      ensures d == -1 ==> free == old(free) && forall k :: 0 <= k < |free| ==> !free[k]
      ensures d != -1 ==> 0 <= d < |old(free)| && old(free)[d] && free == old(free)[d := false]
      ensures d != -1 ==> forall k :: 0 <= k < d ==> !old(free)[k]
    {
      d := 0;
      while d < |free|
        invariant 0 <= d <= |free| && free == old(free)
        invariant forall k :: 0 <= k < d ==> !free[k]
      {
        if free[d] {
          free := free[d := false];
          return;
        }
        d := d + 1;
      }
      d := -1;
    }

    /** free_desc: its two panics are the requires. */
    method FreeDesc(d: int)
      requires 0 <= d < |free| == |desc| && !free[d]
      modifies this`free, this`desc
      ensures desc == old(desc)[d := ZERO] && free == old(free)[d := true]
    {
      desc := desc[d := ZERO];
      free := free[d := true];
    }

    /** free_chain follows the next links of the chain it is freeing. */
    method FreeChain(h: int, ghost i1: int, ghost i2: int)
      requires |free| == |desc| && 0 <= h < |free| && 0 <= i1 < |free| && 0 <= i2 < |free|
      requires h != i1 && h != i2 && i1 != i2 && !free[h] && !free[i1] && !free[i2]
      requires desc[h].chained && desc[h].next == i1 && desc[i1].chained && desc[i1].next == i2 && !desc[i2].chained
      modifies this`free, this`desc
      ensures desc == old(desc)[h := ZERO][i1 := ZERO][i2 := ZERO]
      ensures free == Put(old(free), true, h, i1, i2)
    {
      var i := h;
      ghost var count := 0;
      while true
        invariant 0 <= count <= 2 && i == (if count == 0 then h else if count == 1 then i1 else i2)
        invariant desc == (if count == 0 then old(desc) else if count == 1 then old(desc)[h := ZERO]
                           else old(desc)[h := ZERO][i1 := ZERO])
        invariant free == (if count == 0 then old(free) else if count == 1 then old(free)[h := true]
                           else old(free)[h := true][i1 := true])
        decreases 2 - count
      {
        var flag, nxt := desc[i].chained, desc[i].next;
        FreeDesc(i);
        if flag {
          i := nxt;
          count := count + 1;
        } else {
          break;
        }
      }
    }

    /** alloc3_desc gives back what it has allocated so far. */
    method FreeAll(idx: seq<int>)
      requires |free| == |desc| && (forall j :: 0 <= j < |idx| ==> 0 <= idx[j] < |free| && !free[idx[j]]) && forall j, k :: 0 <= j < k < |idx| ==> idx[j] != idx[k]
      modifies this`free, this`desc
      ensures |free| == |desc| == |old(free)| && forall j :: 0 <= j < |idx| ==> free[idx[j]]
      ensures forall k :: 0 <= k < |free| && k !in idx ==> free[k] == old(free)[k] && desc[k] == old(desc)[k]
    {
      var j := 0;
      while j < |idx|
        invariant 0 <= j <= |idx| && |free| == |desc| == |old(free)|
        invariant forall k :: 0 <= k < j ==> free[idx[k]]
        invariant forall k :: j <= k < |idx| ==> !free[idx[k]]
        invariant forall k :: 0 <= k < |free| && k !in idx ==> free[k] == old(free)[k] && desc[k] == old(desc)[k]
      {
        FreeDesc(idx[j]);
        j := j + 1;
      }
    }

    /** alloc3_desc: three distinct descriptors, or none: a partial allocation is undone. */
    method Alloc3Desc() returns (ok: bool, idx: seq<int>)
      requires |free| == |desc|
      modifies this`free, this`desc
      ensures ok ==> |idx| == 3 && Distinct3(idx) && desc == old(desc)
                     && (forall j :: 0 <= j < 3 ==> 0 <= idx[j] < |old(free)| && old(free)[idx[j]])
                     && free == Put(old(free), false, idx[0], idx[1], idx[2])
      ensures !ok ==> free == old(free) && |desc| == |old(desc)|
                      && (forall k :: 0 <= k < |desc| && !free[k] ==> desc[k] == old(desc)[k])
                      && !exists a, b, c :: 0 <= a < b < c < |free| && free[a] && free[b] && free[c]
    {
      idx := [];
      var i := 0;
      while i < 3
        invariant 0 <= i <= 3 && |idx| == i && desc == old(desc) && |free| == |old(free)|
        invariant forall j :: 0 <= j < i ==> 0 <= idx[j] < |free| && old(free)[idx[j]] && !free[idx[j]]
        invariant forall j, k :: 0 <= j < k < i ==> idx[j] != idx[k]
        invariant forall k :: 0 <= k < |free| && k !in idx ==> free[k] == old(free)[k]
      {
        var d := AllocDesc();
        if d < 0 {
          FewFree(old(free), free, idx);
          FreeAll(idx);
          assert free == old(free);
          return false, idx;
        }
        idx := idx + [d];
        i := i + 1;
      }
      assert free == Put(old(free), false, idx[0], idx[1], idx[2]);
      return true, idx;
    }

    /** The device takes the next request from the avail ring. */
    method DeviceTake()
      requires Valid() && devIdx != availIdx
      modifies this`devIdx, this`taken, this`reqs
      ensures Valid() && Evolved(old(reqs), reqs) && old(taken) < |subs|
      ensures old(subs[taken]) in old(reqs) && State() == TakeStep(old(State()), old(subs[taken]))
    {
      hide Ok;
      TakeFacts(n, State());
      OkShape(n, State());
      var h := avail[devIdx % n];
      TakeOk(n, State(), h);
      devIdx := (devIdx + 1) % WRAP;
      taken := taken + 1;
      reqs := SetPhase(reqs, h, Working);
    }

    /** The device completes a request it has taken, with any status. */
    method DeviceComplete(h: int, v: int)
      requires Valid() && h in reqs && reqs[h].phase == Working
      modifies this`status, this`used, this`usedIdx, this`comps, this`reqs
      ensures Valid() && Evolved(old(reqs), reqs) && StatusKept(old(reqs), old(status), status) && old(comps) <= comps
      ensures 0 <= h < |old(status)| && n > 0 && |old(used)| == n && State() == CompleteStep(n, old(State()), h, v)
    {
      hide Ok;
      CompleteOk(n, State(), h, v);
      status := status[h := v];
      used := used[usedIdx % n := h];
      usedIdx := (usedIdx + 1) % WRAP;
      comps := comps + [h];
      reqs := SetPhase(reqs, h, Done);
    }

    /** Any number of device steps. Requests the device is not working on keep their status. */
    method DeviceRuns()
      requires Valid()
      modifies this`devIdx, this`taken, this`status, this`used, this`usedIdx, this`comps, this`reqs
      ensures Valid() && Evolved(old(reqs), reqs) && old(comps) <= comps && StatusKept(old(reqs), old(status), status)
    {
      hide Ok, Evolved, StatusKept, CompleteStep, TakeStep;
      EvolvedSelf(reqs, status);
      var budget: nat := *;
      while budget > 0
        invariant Valid() && Evolved(old(reqs), reqs) && old(comps) <= comps && StatusKept(old(reqs), old(status), status)
        decreases budget
      {
        var choice: int := *;
        var v: int := *;
        ghost var r, st := reqs, status;
        EvolvedSelf(reqs, status);
        if choice == -1 && devIdx != availIdx {
          DeviceTake();
          EvolvedTrans(old(reqs), r, reqs, old(status), st, status);
        } else if choice in reqs && reqs[choice].phase == Working {
          DeviceComplete(choice, v);
          EvolvedTrans(old(reqs), r, reqs, old(status), st, status);
        }
        budget := budget - 1;
      }
    }

    /** Formatting of the three descriptors: the device will find the request in them. */
    method FormatDescs(idx: seq<int>, b: int, cmd: Cmd)
      requires |idx| == 3 && |desc| == |ops| == n && In(n, idx[0]) && In(n, idx[1]) && In(n, idx[2])
      modifies this`ops, this`desc
      ensures ops == old(ops)[idx[0] := cmd]
      ensures desc == old(desc)[idx[0] := Desc(Header(idx[0]), true, false, idx[1])]
                               [idx[1] := Desc(Data(b), true, !cmd.write, idx[2])]
                               [idx[2] := Desc(Status(idx[0]), false, true, 0)]
      ensures Distinct3(idx) ==> ChainOk(desc, ops, idx[0], Req(idx[1], idx[2], b, cmd, Prepared))
    {
      ops := ops[idx[0] := cmd];
      desc := desc[idx[0] := Desc(Header(idx[0]), true, false, idx[1])];
      desc := desc[idx[1] := Desc(Data(b), true, !cmd.write, idx[2])];
      desc := desc[idx[2] := Desc(Status(idx[0]), false, true, 0)];
    }

    /** The status byte, b->disk, the record for the handler and the avail slot. */
    method FormatSlot(h: int, b: int)
      requires In(n, h) && |status| == |infoB| == |avail| == n
      modifies this`status, this`owned, this`infoB, this`avail
      ensures status == old(status)[h := 0xff] && owned == old(owned) + {b}
      ensures infoB == old(infoB)[h := Some(b)] && avail == old(avail)[availIdx % n := h]
    {
      status := status[h := 0xff];
      owned := owned + {b};
      infoB := infoB[h := Some(b)];
      avail := avail[availIdx % n := h];
    }

    /** Formatting of the three descriptors and the avail slot, once they are allocated. */
    method Format(idx: seq<int>, b: int, cmd: Cmd, ghost q: Q)
      requires Shape(n, q) && |idx| == 3 && In(n, idx[0]) && In(n, idx[1]) && In(n, idx[2])
      requires State() == q.(free := Put(q.free, false, idx[0], idx[1], idx[2]))
      modifies this`ops, this`desc, this`status, this`owned, this`infoB, this`avail, this`reqs, this`owner
      ensures State() == PrepareStep(n, q, idx[0], Req(idx[1], idx[2], b, cmd, Prepared))
    {
      FormatDescs(idx, b, cmd);
      FormatSlot(idx[0], b);
      reqs := reqs[idx[0] := Req(idx[1], idx[2], b, cmd, Prepared)];
      owner := owner[idx[0] := idx[0]][idx[1] := idx[0]][idx[2] := idx[0]];
    }

    /** virtio_disk_rw up to, not including, the increment of avail->idx; -1 stands for the
        sleep that waits for descriptors. */
    method PrepareRequest(b: int, cmd: Cmd) returns (h: int)
      requires Valid() && forall k :: k in reqs ==> reqs[k].phase != Prepared && reqs[k].buf != b
      modifies this`free, this`ops, this`desc, this`status, this`owned, this`infoB, this`avail, this`reqs, this`owner
      ensures Valid()
      ensures h == -1 ==> reqs == old(reqs) && !exists x, y, z :: 0 <= x < y < z < |free| && free[x] && free[y] && free[z]
      ensures h != -1 ==> h !in old(reqs) && h in reqs && reqs == old(reqs)[h := reqs[h]]
      ensures h != -1 ==> reqs[h].buf == b && reqs[h].cmd == cmd && reqs[h].phase == Prepared
    {
      hide Ok, PrepareStep;
      OkShape(n, State());
      ghost var q := State();
      var ok, idx := Alloc3Desc();
      if !ok {
        FreeDescsIrrelevant(n, q, desc);
        return -1;
      }
      h := idx[0];
      ghost var r := Req(idx[1], idx[2], b, cmd, Prepared);
      PrepareFresh(n, q, h, r);
      PrepareOk(n, q, h, r);
      PrepareReqs(n, q, h, r);
      Format(idx, b, cmd, q);
    }

    /** The increment of avail->idx. */
    method PublishRequest(h: int)
      requires Valid() && h in reqs && reqs[h].phase == Prepared
      modifies this`availIdx, this`subs, this`reqs
      ensures Valid() && State() == PublishStep(old(State()), h)
    {
      hide Ok;
      PublishOk(n, State(), h);
      availIdx := (availIdx + 1) % WRAP;
      subs := subs + [h];
      reqs := SetPhase(reqs, h, Queued);
    }

    /** virtio_disk_rw up to its first wait for completion, with the device running between
        the ring write and the increment of avail->idx. */
    method Submit(b: int, cmd: Cmd) returns (h: int)
      requires Valid() && forall k :: k in reqs ==> reqs[k].phase != Prepared && reqs[k].buf != b
      modifies this
      ensures Valid() && forall k :: k in reqs ==> reqs[k].phase != Prepared
      ensures h == -1 ==> reqs == old(reqs)
      ensures h != -1 ==> h !in old(reqs) && h in reqs && Evolved(old(reqs), reqs - {h})
      ensures h != -1 ==> reqs[h].buf == b && reqs[h].cmd == cmd && reqs[h].phase == Queued
    {
      hide Ok;
      h := PrepareRequest(b, cmd);
      if h == -1 {
        return;
      }
      DeviceRuns();
      PublishRequest(h);
    }

    /** The interrupt handler: delivers every completion it finds, while the device goes on
        completing; it panics exactly if one of them reports an error. */
    method Interrupt() returns (panicked: bool)
      requires Valid()
      modifies this`devIdx, this`taken, this`status, this`used, this`usedIdx, this`comps, this`reqs,
               this`owned, this`seenIdx, this`seen
      ensures Valid() && Delivered(old(reqs), reqs) && old(seen) <= seen <= |comps|
      ensures !panicked ==> seenIdx == usedIdx && seen == |comps| && forall h :: h in reqs ==> reqs[h].phase != Done
      ensures panicked <==> exists j :: old(seen) <= j < |comps| && Failed(status, comps[j])
      ensures forall j :: old(seen) <= j < seen ==> !Failed(status, comps[j])
    {
      hide Ok, Delivered, Evolved, Clean, StatusKept;
      panicked := false;
      CleanNone(reqs, status, comps, seen);
      DeviceRuns();
      DeliveredSelf(old(reqs));
      DeliveredEvolved(old(reqs), old(reqs), reqs);
      SeeFacts(n, State());
      CleanNone(reqs, status, comps, seen);
      while seenIdx != usedIdx
        invariant Valid() && Delivered(old(reqs), reqs) && old(seen) <= seen <= |comps| && (seenIdx != usedIdx <==> seen < |comps|)
        invariant Clean(reqs, status, comps, old(seen), seen)
        decreases Unseen(reqs)
      {
        ghost var r0 := reqs;
        var ok := DeliverOne();
        CleanFacts(reqs, status, comps, old(seen), seen);
        if !ok {
          panicked := true;
          return;
        }
        DeliveredTrans(old(reqs), r0, reqs);
        ghost var r, st, cs := reqs, status, comps;
        DeviceRuns();
        CleanKept(r, reqs, st, status, cs, comps, old(seen), seen);
        UnseenEvolved(r, reqs);
        DeliveredEvolved(old(reqs), r, reqs);
        SeeFacts(n, State());
      }
      CleanFacts(reqs, status, comps, old(seen), seen);
      NoneDone(n, State());
    }

    /** One turn of the handler's loop; false stands for its panic, on a status other than 0. */
    method DeliverOne() returns (ok: bool)
      requires Valid() && seenIdx != usedIdx
      modifies this`owned, this`seenIdx, this`seen, this`reqs
      ensures Valid() && old(seen) < |comps| && (ok <==> !Failed(status, comps[old(seen)]))
      ensures !ok ==> State() == old(State())
      ensures ok ==> Delivered(old(reqs), reqs) && Unseen(reqs) < Unseen(old(reqs)) && seen == old(seen) + 1
      ensures forall a :: a <= old(seen) && Clean(old(reqs), status, comps, a, old(seen)) ==> Clean(reqs, status, comps, a, seen)
    {
      hide Ok;
      SeeFacts(n, State());
      OkShape(n, State());
      var id := used[seenIdx % n];
      ok := status[id] == 0;
      if !ok {
        return;
      }
      SeeOk(n, State(), id);
      UnseenDrops(reqs, id);
      var b := infoB[id].value;
      owned := owned - {b};
      seenIdx := (seenIdx + 1) % WRAP;
      seen := seen + 1;
      reqs := SetPhase(reqs, id, Seen);
    }

    /** virtio_disk_rw once b->disk is 0. */
    method FinishRequest(h: int)
      requires Valid() && h in reqs && reqs[h].phase == Seen
      modifies this`infoB, this`desc, this`free, this`reqs, this`owner
      ensures Valid() && reqs == old(reqs) - {h}
      ensures forall d :: d in Chain(h, old(reqs)[h]) ==> 0 <= d < |free| && free[d]
    {
      hide Ok, Put, ChainOk;
      OkShape(n, State());
      FinishOk(n, State(), h);
      ChainFacts(n, State(), h);
      ghost var q, r := State(), reqs[h];
      ChainFreed(n, q, h);
      infoB := infoB[h := None];
      FreeChain(h, r.i1, r.i2);
      reqs := reqs - {h};
      owner := owner - Chain(h, r);
      assert State() == FinishStep(n, q, h);
    }
  }

  /** The request's status byte reports an error. */
  predicate Failed(status: seq<int>, h: int) {
    0 <= h < |status| && status[h] != 0
  }

  /** Completions a to b - 1 are delivered, and none of them reported an error. */
  ghost predicate Clean(reqs: map<int, Req>, status: seq<int>, comps: seq<int>, a: int, b: int) {
    0 <= a <= b <= |comps| && forall j :: a <= j < b ==> comps[j] in reqs && reqs[comps[j]].phase == Seen && !Failed(status, comps[j])
  }

  ghost predicate StatusKept(reqs: map<int, Req>, status: seq<int>, status': seq<int>) {
    |status'| == |status| && forall h :: h in reqs && reqs[h].phase == Seen && 0 <= h < |status| ==> status'[h] == status[h]
  }

  lemma EvolvedSelf(r: map<int, Req>, st: seq<int>)
    ensures Evolved(r, r) && StatusKept(r, st, st)
  {
  }

  lemma EvolvedTrans(r: map<int, Req>, r': map<int, Req>, r'': map<int, Req>, st: seq<int>, st': seq<int>, st'': seq<int>)
    requires Evolved(r, r') && Evolved(r', r'') && StatusKept(r, st, st') && StatusKept(r', st', st'')
    ensures Evolved(r, r'') && StatusKept(r, st, st'')
  {
    assert forall h :: h in r.Keys <==> h in r'.Keys;
  }

  lemma CleanNone(reqs: map<int, Req>, status: seq<int>, comps: seq<int>, a: nat)
    ensures a <= |comps| ==> Clean(reqs, status, comps, a, a)
  {
  }

  lemma CleanFacts(reqs: map<int, Req>, status: seq<int>, comps: seq<int>, a: int, b: int)
    requires Clean(reqs, status, comps, a, b)
    ensures forall j :: a <= j < b ==> !Failed(status, comps[j])
  {
  }

  lemma CleanKept(r: map<int, Req>, r': map<int, Req>, st: seq<int>, st': seq<int>, cs: seq<int>, cs': seq<int>, a: int, b: int)
    requires Clean(r, st, cs, a, b) && Evolved(r, r') && StatusKept(r, st, st') && cs <= cs'
    ensures Clean(r', st', cs', a, b)
  {
    forall j | a <= j < b ensures cs'[j] in r' && r'[cs'[j]].phase == Seen && !Failed(st', cs'[j]) {
      assert cs'[j] == cs[j] && cs[j] in r && cs[j] in r'.Keys;
    }
  }

  /** Requests on their way from the device to the requester. */
  ghost predicate Delivered(r: map<int, Req>, r': map<int, Req>) {
    && r.Keys == r'.Keys
    && forall h :: h in r ==>
         && r'[h] == r[h].(phase := r'[h].phase)
         && Rank(r[h].phase) <= Rank(r'[h].phase)
         && (r[h].phase == Prepared || r[h].phase == Seen ==> r'[h].phase == r[h].phase)
  }

  lemma DeliveredSelf(r: map<int, Req>)
    ensures Delivered(r, r)
  {
  }

  lemma DeliveredEvolved(r: map<int, Req>, r': map<int, Req>, r'': map<int, Req>)
    requires Delivered(r, r') && Evolved(r', r'')
    ensures Delivered(r, r'')
  {
    assert forall h :: h in r.Keys <==> h in r'.Keys;
  }

  lemma DeliveredTrans(r: map<int, Req>, r': map<int, Req>, r'': map<int, Req>)
    requires Delivered(r, r') && Delivered(r', r'')
    ensures Delivered(r, r'')
  {
    assert forall h :: h in r.Keys <==> h in r'.Keys;
  }

  function Rank(p: Phase): int {
    match p
    case Prepared => 0
    case Queued => 1
    case Working => 2
    case Done => 3
    case Seen => 4
  }

  ghost function UnseenSet(r: map<int, Req>): set<int> {
    set h | h in r && r[h].phase != Seen
  }

  /** How many requests the handler has not delivered. */
  ghost function Unseen(r: map<int, Req>): nat {
    |UnseenSet(r)|
  }

  lemma UnseenDrops(r: map<int, Req>, h: int)
    requires h in r && r[h].phase != Seen
    ensures Unseen(SetPhase(r, h, Seen)) < Unseen(r)
  {
    assert UnseenSet(SetPhase(r, h, Seen)) == UnseenSet(r) - {h};
  }

  lemma UnseenEvolved(r: map<int, Req>, r': map<int, Req>)
    requires Evolved(r, r')
    ensures Unseen(r') == Unseen(r)
  {
    forall h ensures h in UnseenSet(r') <==> h in UnseenSet(r) {
      assert h in r.Keys <==> h in r'.Keys;
    }
    assert UnseenSet(r') == UnseenSet(r);
  }

  lemma PrepareReqs(n: int, q: Q, h: int, r: Req)
    requires Shape(n, q) && In(n, h) && In(n, r.i1) && In(n, r.i2)
    ensures PrepareStep(n, q, h, r).reqs == q.reqs[h := r]
  {
  }

  lemma NoneDone(n: int, q: Q)
    requires Ok(n, q) && q.seen == |q.comps|
    ensures forall h :: h in q.reqs ==> q.reqs[h].phase != Done
  {
    assert q.comps[q.seen..] == [];
  }

  lemma ChainFacts(n: int, q: Q, h: int)
    requires Ok(n, q) && h in q.reqs
    ensures var r := q.reqs[h];
            && h != r.i1 && h != r.i2 && r.i1 != r.i2 && In(n, h) && In(n, r.i1) && In(n, r.i2) && Shape(n, q)
            && !q.free[h] && !q.free[r.i1] && !q.free[r.i2] && ChainOk(q.desc, q.ops, h, r)
  {
    assert OwnsAll(q.owner, h, q.reqs[h]);
  }

  lemma ChainFreed(n: int, q: Q, h: int)
    requires Shape(n, q) && h in q.reqs && In(n, h) && In(n, q.reqs[h].i1) && In(n, q.reqs[h].i2)
    ensures var free := FinishStep(n, q, h).free; forall d :: d in Chain(h, q.reqs[h]) ==> 0 <= d < |free| && free[d]
    ensures var r := q.reqs[h]; ChainOk(q.desc, q.ops, h, r) && |q.desc| == n ==>
      q.desc[h].chained && q.desc[h].next == r.i1 && q.desc[r.i1].chained && q.desc[r.i1].next == r.i2 && !q.desc[r.i2].chained
  {
  }

  /** The contents of free descriptors do not matter. */
  lemma FreeDescsIrrelevant(n: int, q: Q, desc: seq<Desc>)
    requires Ok(n, q) && |desc| == |q.desc| == |q.free|
    requires forall k :: 0 <= k < |desc| && !q.free[k] ==> desc[k] == q.desc[k]
    ensures Ok(n, q.(desc := desc))
  {
    hide RingOk, PhasesOk, CountersOk, BufsOk;
    forall h | h in q.reqs ensures ChainOk(desc, q.ops, h, q.reqs[h]) {
      ChainFactsOf(n, q.free, q.desc, q.ops, q.reqs, q.owner, h);
    }
  }

  lemma ChainFactsOf(n: int, free: seq<bool>, desc: seq<Desc>, ops: seq<Cmd>, reqs: map<int, Req>, owner: map<int, int>, h: int)
    requires DescsOk(n, free, desc, ops, reqs, owner) && h in reqs
    ensures var r := reqs[h]; In(n, h) && In(n, r.i1) && In(n, r.i2) && !free[h] && !free[r.i1] && !free[r.i2]
  {
    assert OwnsAll(owner, h, reqs[h]);
  }

  /** What the device may do to the requests: take queued ones, complete taken ones. */
  ghost predicate Evolved(r: map<int, Req>, r': map<int, Req>) {
    && r.Keys == r'.Keys
    && forall h :: h in r ==>
         && r'[h] == r[h].(phase := r'[h].phase)
         && (r'[h].phase != r[h].phase ==>
               (r[h].phase == Queued && (r'[h].phase == Working || r'[h].phase == Done)) || (r[h].phase == Working && r'[h].phase == Done))
  }

  predicate Distinct3(idx: seq<int>)
    requires |idx| == 3
  {
    idx[0] != idx[1] && idx[0] != idx[2] && idx[1] != idx[2]
  }

  /** When fewer than three were allocated and none is left, there were not three. */
  lemma FewFree(before: seq<bool>, after: seq<bool>, idx: seq<int>)
    requires |before| == |after| && |idx| < 3
    requires forall k :: 0 <= k < |after| ==> !after[k]
    requires forall k :: 0 <= k < |after| && k !in idx ==> after[k] == before[k]
    ensures !exists a, b, c :: 0 <= a < b < c < |before| && before[a] && before[b] && before[c]
  {
    forall a, b, c | 0 <= a < b < c < |before| ensures !(before[a] && before[b] && before[c]) {
      assert !(a in idx && b in idx && c in idx);
    }
  }
}
