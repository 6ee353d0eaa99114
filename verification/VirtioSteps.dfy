/** The driver's and the device's steps keep the ring protocol's invariant. */
module VirtioSteps {
  import opened Blocks
  import opened VirtioState

  // ---- submitting ----

  ghost predicate Triple(t: Tables, i0: nat, i1: nat, i2: nat) {
    && i0 < NUM && i1 < NUM && i2 < NUM && i0 != i1 && i0 != i2 && i1 != i2
    && Shape(t) && t.free[i0] && t.free[i1] && t.free[i2]
  }

  function Format(t: Tables, b: nat, op: Op, i0: nat, i1: nat, i2: nat): Tables
    requires Shape(t) && i0 < NUM && i1 < NUM && i2 < NUM
  {
    Tables(t.free[i0 := false][i1 := false][i2 := false],
           t.desc[i0 := Desc(Header(i0), 16, i1, true, false)]
                 [i1 := Desc(Data(b), BSIZE, i2, true, !op.write)]
                 [i2 := Desc(StatusOf(i0), 1, 0, false, true)],
           t.ops[i0 := op], t.info[i0 := Info(b, 0xff)])
  }

  /** A free descriptor is in no chain. */
  lemma Apart(free: seq<bool>, reqs: Reqs, own: map<nat, nat>, h: nat, i: nat)
    requires Owners(free, reqs, own) && h in reqs && i < NUM && free[i]
    ensures i != h && i != reqs[h].i1 && i != reqs[h].i2
  {
    assert HeadOk(own, h, reqs[h]);
  }

  /** A chain nobody touched. */
  lemma SameChain(t: Tables, u: Tables, h: nat, r: Req)
    requires Shape(t) && Shape(u) && ChainOk(t, h, r)
    requires u.desc[h] == t.desc[h] && u.desc[r.i1] == t.desc[r.i1] && u.desc[r.i2] == t.desc[r.i2]
    requires u.ops[h] == t.ops[h] && u.info[h] == t.info[h]
    ensures ChainOk(u, h, r)
  {
  }

  lemma Three<T>(d: seq<T>, i0: nat, i1: nat, i2: nat, x: T, y: T, z: T, k: nat)
    requires i0 < |d| && i1 < |d| && i2 < |d| && k < |d| && i0 != i1 && i0 != i2 && i1 != i2
    ensures d[i0 := x][i1 := y][i2 := z][k] == if k == i0 then x else if k == i1 then y else if k == i2 then z else d[k]
  {
  }

  lemma FormatOld(t: Tables, reqs: Reqs, own: map<nat, nat>, r: Req, i0: nat, h: nat)
    requires Chains(t, reqs) && Owners(t.free, reqs, own) && Triple(t, i0, r.i1, r.i2) && h in reqs
    ensures h != i0 && ChainOk(Format(t, r.b, r.op, i0, r.i1, r.i2), h, reqs[h])
  {
    hide Owners;
    var u, q := Format(t, r.b, r.op, i0, r.i1, r.i2), reqs[h];
    Apart(t.free, reqs, own, h, i0);
    Apart(t.free, reqs, own, h, r.i1);
    Apart(t.free, reqs, own, h, r.i2);
    assert ChainOk(t, h, q);
    hide ChainOk;
    SameChain(t, u, h, q);
  }

  lemma FormatNew(t: Tables, r: Req, i0: nat)
    requires Triple(t, i0, r.i1, r.i2) && r.b != 0 && r.phase.Queued?
    ensures ChainOk(Format(t, r.b, r.op, i0, r.i1, r.i2), i0, r)
  {
  }

  lemma FormatChains(t: Tables, reqs: Reqs, own: map<nat, nat>, r: Req, i0: nat)
    requires Chains(t, reqs) && Owners(t.free, reqs, own) && Triple(t, i0, r.i1, r.i2) && r.b != 0 && r.phase.Queued?
    ensures i0 !in reqs && Chains(Format(t, r.b, r.op, i0, r.i1, r.i2), reqs[i0 := r])
  {
    hide ChainOk, Owners;
    var u := Format(t, r.b, r.op, i0, r.i1, r.i2);
    FormatNew(t, r, i0);
    forall h | h in reqs ensures h != i0 && ChainOk(u, h, reqs[h]) {
      FormatOld(t, reqs, own, r, i0, h);
    }
  }

  function Own3(own: map<nat, nat>, i0: nat, i1: nat, i2: nat): map<nat, nat> {
    own[i0 := i0][i1 := i0][i2 := i0]
  }

  lemma FormatOwners(free: seq<bool>, reqs: Reqs, own: map<nat, nat>, r: Req, i0: nat)
    requires Owners(free, reqs, own) && i0 < NUM && r.i1 < NUM && r.i2 < NUM && i0 != r.i1 && i0 != r.i2 && r.i1 != r.i2
    requires free[i0] && free[r.i1] && free[r.i2] && i0 !in reqs
    ensures Owners(free[i0 := false][r.i1 := false][r.i2 := false], reqs[i0 := r], Own3(own, i0, r.i1, r.i2))
  {
    hide HeadOk, OwnerOk;
    var f, o, q := free[i0 := false][r.i1 := false][r.i2 := false], Own3(own, i0, r.i1, r.i2), reqs[i0 := r];
    forall h | h in q ensures HeadOk(o, h, q[h]) {
      NewHead(free, reqs, own, r, i0, h);
    }
    forall i | i in o ensures OwnerOk(q, o, i) {
      NewOwner(free, reqs, own, r, i0, i);
    }
    forall i | 0 <= i < NUM ensures f[i] <==> i !in o {
      Three(free, i0, r.i1, r.i2, false, false, false, i);
    }
    OwnCount(own, i0, r.i1, r.i2);
  }

  lemma NewHead(free: seq<bool>, reqs: Reqs, own: map<nat, nat>, r: Req, i0: nat, h: nat)
    requires Owners(free, reqs, own) && i0 < NUM && r.i1 < NUM && r.i2 < NUM && free[i0] && free[r.i1] && free[r.i2]
    requires h == i0 || h in reqs
    ensures HeadOk(Own3(own, i0, r.i1, r.i2), h, reqs[i0 := r][h])
  {
    if h != i0 {
      assert HeadOk(own, h, reqs[h]);
      Apart(free, reqs, own, h, i0);
      Apart(free, reqs, own, h, r.i1);
      Apart(free, reqs, own, h, r.i2);
    }
  }

  lemma NewOwner(free: seq<bool>, reqs: Reqs, own: map<nat, nat>, r: Req, i0: nat, i: nat)
    requires Owners(free, reqs, own) && i0 < NUM && r.i1 < NUM && r.i2 < NUM && free[i0] && free[r.i1] && free[r.i2]
    requires i in Own3(own, i0, r.i1, r.i2) && i0 !in reqs
    ensures OwnerOk(reqs[i0 := r], Own3(own, i0, r.i1, r.i2), i)
  {
    if i != i0 && i != r.i1 && i != r.i2 {
      assert OwnerOk(reqs, own, i);
    }
  }

  lemma OwnCount(own: map<nat, nat>, i0: nat, i1: nat, i2: nat)
    requires i0 !in own && i1 !in own && i2 !in own && i0 != i1 && i0 != i2 && i1 != i2
    ensures |Own3(own, i0, i1, i2)| == |own| + 3
  {
    var o1 := own[i0 := i0];
    assert |o1| == |own| + 1 && |o1[i1 := i0]| == |o1| + 1;
  }

  /** virtio_disk_rw up to the notify. */
  function Submit(v: V, b: nat, op: Op, i0: nat, i1: nat, i2: nat): V
    requires Shape(v.t) && i0 < NUM && i1 < NUM && i2 < NUM && |v.avail.slots| == NUM
  {
    V(Format(v.t, b, op, i0, i1, i2), Push(v.avail, i0), v.used, v.busy + {b}, v.data, v.disk,
      v.reqs[i0 := Req(b, op, i1, i2, Queued, v.nextId)], Own3(v.own, i0, i1, i2), v.nextId + 1, v.log)
  }

  /** The buffer is in no request: its caller holds its lock. */
  ghost predicate Fresh(v: V, b: nat) { b != 0 && b !in v.busy && forall h :: h in v.reqs ==> v.reqs[h].b != b }

  lemma SubmitOk(v: V, b: nat, op: Op, i0: nat, i1: nat, i2: nat)
    requires Inv(v) && Fresh(v, b) && Triple(v.t, i0, i1, i2)
    ensures Inv(Submit(v, b, op, i0, i1, i2)) && i0 !in v.reqs
  {
    hide Chains, Owners, Flags, Logs, RingOk;
    var r := Req(b, op, i1, i2, Queued, v.nextId);
    FormatChains(v.t, v.reqs, v.own, r, i0);
    FormatOwners(v.t.free, v.reqs, v.own, r, i0);
    RingsShort(v);
    assert i0 !in v.avail.q;
    PushOk(v.avail, i0);
    SubmitFlags(v, r, i0);
    SubmitLogs(v, r, i0);
    assert Heads(v.avail.q + [i0], v.reqs[i0 := r]);
  }

  lemma SubmitFlags(v: V, r: Req, i0: nat)
    requires Flags(v.reqs, v.busy, v.avail.q, v.used.q) && Heads(v.used.q, v.reqs) && Fresh(v, r.b) && r.phase.Queued?
    requires i0 !in v.reqs
    ensures Flags(v.reqs[i0 := r], v.busy + {r.b}, v.avail.q + [i0], v.used.q)
  {
    var q := v.reqs[i0 := r];
    forall h | h in q ensures FlagOk(v.busy + {r.b}, v.avail.q + [i0], v.used.q, h, q[h]) {
      if h != i0 {
        assert FlagOk(v.busy, v.avail.q, v.used.q, h, v.reqs[h]);
      }
    }
  }

  lemma SubmitLogs(v: V, r: Req, i0: nat)
    requires Logs(v.reqs, v.log, v.data, v.nextId) && r.id == v.nextId && r.phase.Queued?
    ensures Logs(v.reqs[i0 := r], v.log, v.data, v.nextId + 1)
  {
    var q := v.reqs[i0 := r];
    forall h | h in q ensures LogOk(v.log, v.data, q[h]) && q[h].id < v.nextId + 1 {
      if h != i0 {
        assert LogOk(v.log, v.data, v.reqs[h]);
      }
    }
  }

  // ---- changes of phase ----

  function SetPhase(reqs: Reqs, h: nat, ph: Phase): Reqs
    requires h in reqs
  {
    reqs[h := reqs[h].(phase := ph)]
  }

  lemma PhaseOwners(free: seq<bool>, reqs: Reqs, own: map<nat, nat>, h: nat, ph: Phase)
    requires Owners(free, reqs, own) && h in reqs
    ensures Owners(free, SetPhase(reqs, h, ph), own)
  {
    var q := SetPhase(reqs, h, ph);
    assert q.Keys == reqs.Keys;
    assert |q| == |q.Keys| && |reqs| == |reqs.Keys|;
    forall k | k in q ensures HeadOk(own, k, q[k]) {
      assert HeadOk(own, k, reqs[k]);
    }
    forall i | i in own ensures OwnerOk(q, own, i) {
      assert OwnerOk(reqs, own, i);
    }
  }

  /** The chains stay as they are if the status already suits the new phase. */
  lemma PhaseChains(t: Tables, reqs: Reqs, h: nat, ph: Phase)
    requires Chains(t, reqs) && h in reqs
    requires (ph.Queued? || ph.Working?) <==> (reqs[h].phase.Queued? || reqs[h].phase.Working?)
    ensures Chains(t, SetPhase(reqs, h, ph))
  {
    var q := SetPhase(reqs, h, ph);
    forall k | k in q ensures ChainOk(t, k, q[k]) {
      assert ChainOk(t, k, reqs[k]);
    }
  }

  lemma PhaseFlags(v: V, h: nat, ph: Phase, busy: set<nat>, queue: seq<nat>, done: seq<nat>)
    requires Flags(v.reqs, v.busy, v.avail.q, v.used.q) && h in v.reqs
    requires FlagOk(busy, queue, done, h, v.reqs[h].(phase := ph))
    requires forall b :: b != v.reqs[h].b ==> (b in busy <==> b in v.busy)
    requires forall k :: k != h ==> (k in queue <==> k in v.avail.q) && (k in done <==> k in v.used.q)
    ensures Flags(SetPhase(v.reqs, h, ph), busy, queue, done)
  {
    var q := SetPhase(v.reqs, h, ph);
    forall k | k in q ensures FlagOk(busy, queue, done, k, q[k]) {
      assert FlagOk(v.busy, v.avail.q, v.used.q, k, v.reqs[k]);
    }
  }

  lemma PhaseLogs(reqs: Reqs, log: map<nat, Did>, data: map<nat, Block>, nextId: nat, h: nat, ph: Phase)
    requires Logs(reqs, log, data, nextId) && h in reqs
    requires (ph.Done? || ph.Acked?) <==> (reqs[h].phase.Done? || reqs[h].phase.Acked?)
    ensures Logs(SetPhase(reqs, h, ph), log, data, nextId)
  {
    var q := SetPhase(reqs, h, ph);
    forall k | k in q ensures LogOk(log, data, q[k]) && q[k].id < nextId {
      assert LogOk(log, data, reqs[k]);
    }
  }

  // ---- the device ----

  /** The device takes the next available chain. */
  function Take(v: V): V
    requires v.avail.q != [] && |v.avail.slots| == NUM && v.avail.slots[v.avail.from % NUM] in v.reqs
  {
    v.(avail := Pop(v.avail), reqs := SetPhase(v.reqs, v.avail.slots[v.avail.from % NUM], Working))
  }

  lemma TakeOk(v: V)
    requires Inv(v) && v.avail.q != []
    ensures v.avail.slots[v.avail.from % NUM] == v.avail.q[0] && v.avail.q[0] in v.reqs && Inv(Take(v))
  {
    hide Chains, Owners, Flags, Logs, RingOk;
    PopOk(v.avail);
    var h := v.avail.q[0];
    assert h in v.reqs;
    Phased(v, h);
    PhaseOwners(v.t.free, v.reqs, v.own, h, Working);
    PhaseChains(v.t, v.reqs, h, Working);
    PhaseFlags(v, h, Working, v.busy, Pop(v.avail).q, v.used.q);
    PhaseLogs(v.reqs, v.log, v.data, v.nextId, h, Working);
    assert Heads(Pop(v.avail).q, SetPhase(v.reqs, h, Working));
  }

  lemma Phased(v: V, h: nat)
    requires Inv(v) && h in v.reqs
    ensures FlagOk(v.busy, v.avail.q, v.used.q, h, v.reqs[h]) && LogOk(v.log, v.data, v.reqs[h])
    ensures v.reqs[h].id < v.nextId
    ensures Shape(v.t) && ChainOk(v.t, h, v.reqs[h]) && |v.avail.slots| == |v.used.slots| == NUM
  {
  }

  function Stored(m: map<nat, Block>, k: nat): Block { if k in m then m[k] else seq(BSIZE, i => 0) }

  /** The chain that starts at h, as the device reads it from memory: the operation, the buffer, and
      where the status goes. */
  function ReadChain(t: Tables, h: nat): (Op, nat, nat)
    requires Shape(t) && h < NUM
  {
    var d0 := t.desc[h];
    var d1 := if d0.next < NUM then t.desc[d0.next] else NONE;
    var d2 := if d1.next < NUM then t.desc[d1.next] else NONE;
    (if d0.addr.Header? && d0.addr.i < NUM then t.ops[d0.addr.i] else Op(false, 0),
     if d1.addr.Data? then d1.addr.b else 0,
     if d2.addr.StatusOf? && d2.addr.i < NUM then d2.addr.i else 0)
  }

  /** The device sees exactly what the driver asked. */
  lemma ChainReads(t: Tables, h: nat, r: Req)
    requires Shape(t) && ChainOk(t, h, r)
    ensures h < NUM && ReadChain(t, h) == (r.op, r.b, h)
  {
  }

  function StatusDone(t: Tables, st: nat): Tables
    requires Shape(t) && st < NUM
  {
    t.(info := t.info[st := t.info[st].(status := 0)])
  }

  /** The device carries out the request at h, whichever it likes, and reports it in the used ring. */
  function Complete(v: V, h: nat): V
    requires Shape(v.t) && h in v.reqs && h < NUM && |v.used.slots| == NUM
  {
    var (op, b, st) := ReadChain(v.t, h);
    var block := if op.write then Stored(v.data, b) else Stored(v.disk, op.sector);
    v.(t := StatusDone(v.t, st), used := Push(v.used, h),
       data := if op.write then v.data else v.data[b := block],
       disk := if op.write then v.disk[op.sector := block] else v.disk,
       reqs := SetPhase(v.reqs, h, Done), log := v.log[v.reqs[h].id := Did(b, op, block)])
  }

  lemma CompleteOk(v: V, h: nat)
    requires Inv(v) && h in v.reqs && v.reqs[h].phase.Working?
    ensures h < NUM && Shape(v.t) && |v.used.slots| == NUM && Inv(Complete(v, h))
  {
    hide Chains, Owners, Flags, Logs, RingOk, ReadChain, Stored, StatusDone;
    Phased(v, h);
    ChainReads(v.t, h, v.reqs[h]);
    RingsShort(v);
    PushOk(v.used, h);
    var u := Complete(v, h);
    PhaseOwners(v.t.free, v.reqs, v.own, h, Done);
    StatusChains(v.t, v.reqs, h);
    PhaseFlags(v, h, Done, v.busy, v.avail.q, u.used.q);
    CompleteLogs(v, h, u.log[v.reqs[h].id].block);
    assert Heads(u.used.q, u.reqs) && Heads(u.avail.q, u.reqs);
  }

  lemma StatusChains(t: Tables, reqs: Reqs, h: nat)
    requires Chains(t, reqs) && h in reqs && h < NUM && reqs[h].phase.Working?
    ensures Chains(StatusDone(t, h), SetPhase(reqs, h, Done)) && StatusDone(t, h).free == t.free
  {
    var u, q := StatusDone(t, h), SetPhase(reqs, h, Done);
    forall k | k in q ensures ChainOk(u, k, q[k]) {
      assert ChainOk(t, k, reqs[k]);
    }
  }

  lemma CompleteLogs(v: V, h: nat, block: Block)
    requires Inv(v) && h in v.reqs && v.reqs[h].phase.Working?
    ensures var r := v.reqs[h];
            Logs(SetPhase(v.reqs, h, Done), v.log[r.id := Did(r.b, r.op, block)],
                 if r.op.write then v.data else v.data[r.b := block], v.nextId)
  {
    hide Chains, Owners, RingOk, Heads;
    var r := v.reqs[h];
    assert LogOk(v.log, v.data, v.reqs[h]);
    var log, q := v.log[r.id := Did(r.b, r.op, block)], SetPhase(v.reqs, h, Done);
    var data := if r.op.write then v.data else v.data[r.b := block];
    forall k | k in q ensures LogOk(log, data, q[k]) && q[k].id < v.nextId {
      assert LogOk(v.log, v.data, v.reqs[k]);
    }
  }

  // ---- the interrupt handler ----

  /** One turn of virtio_disk_intr's loop. */
  function Ack(v: V): V
    requires Shape(v.t) && v.used.q != [] && |v.used.slots| == NUM
    requires v.used.slots[v.used.from % NUM] in v.reqs && v.used.slots[v.used.from % NUM] < NUM
  {
    var id := v.used.slots[v.used.from % NUM];
    v.(busy := v.busy - {v.t.info[id].b}, used := Pop(v.used), reqs := SetPhase(v.reqs, id, Acked))
  }

  /** The entry is a request's head, its status is 0, and its own buffer is marked done. */
  lemma AckOk(v: V)
    requires Inv(v) && v.used.q != []
    ensures var h := v.used.q[0];
            && v.used.slots[v.used.from % NUM] == h && h in v.reqs && h < NUM && Shape(v.t)
            && v.t.info[h].status == 0 && v.t.info[h].b == v.reqs[h].b && Inv(Ack(v))
  {
    hide Chains, Owners, Flags, Logs, RingOk;
    PopOk(v.used);
    var h := v.used.q[0];
    assert h in v.reqs;
    Phased(v, h);
    assert v.reqs[h].phase.Done?;
    PhaseOwners(v.t.free, v.reqs, v.own, h, Acked);
    PhaseChains(v.t, v.reqs, h, Acked);
    PhaseFlags(v, h, Acked, v.busy - {v.reqs[h].b}, v.avail.q, Pop(v.used).q);
    PhaseLogs(v.reqs, v.log, v.data, v.nextId, h, Acked);
    assert Heads(Pop(v.used).q, SetPhase(v.reqs, h, Acked));
  }

  // ---- finishing ----

  /** The tables after free_chain of r's descriptors. */
  function Unlink(t: Tables, h: nat, i1: nat, i2: nat): Tables
    requires Shape(t) && h < NUM && i1 < NUM && i2 < NUM
  {
    Tables(t.free[h := true][i1 := true][i2 := true], t.desc[h := NONE][i1 := NONE][i2 := NONE],
           t.ops, t.info[h := t.info[h].(b := 0)])
  }

  /** virtio_disk_rw after its sleep: the chain is freed. */
  function Finish(v: V, h: nat): V
    requires Shape(v.t) && h in v.reqs && h < NUM && v.reqs[h].i1 < NUM && v.reqs[h].i2 < NUM
  {
    var r := v.reqs[h];
    v.(t := Unlink(v.t, h, r.i1, r.i2), reqs := v.reqs - {h}, own := v.own - {h, r.i1, r.i2})
  }

  /** A caller that finds b->disk clear: the device has done this very request, and a block read is in
      the buffer. */
  lemma RwReturns(v: V, h: nat)
    requires Inv(v) && h in v.reqs && v.reqs[h].b !in v.busy
    ensures var r := v.reqs[h];
            && r.phase.Acked? && r.id in v.log && v.log[r.id].b == r.b && v.log[r.id].op == r.op
            && (!r.op.write ==> r.b in v.data && v.data[r.b] == v.log[r.id].block)
  {
    Phased(v, h);
  }

  lemma FinishOk(v: V, h: nat)
    requires Inv(v) && h in v.reqs && v.reqs[h].phase.Acked?
    ensures Shape(v.t) && ChainOk(v.t, h, v.reqs[h]) && Inv(Finish(v, h))
  {
    hide Chains, Owners, Flags, Logs, RingOk;
    Phased(v, h);
    FinishTables(v.t, v.reqs, v.own, h);
    FinishOwners(v.t.free, v.reqs, v.own, h);
    FinishRest(v, h);
  }

  lemma FinishTables(t: Tables, reqs: Reqs, own: map<nat, nat>, h: nat)
    requires Chains(t, reqs) && Owners(t.free, reqs, own) && h in reqs && ChainOk(t, h, reqs[h])
    ensures Chains(Unlink(t, h, reqs[h].i1, reqs[h].i2), reqs - {h})
  {
    hide ChainOk, Owners;
    Ends(t, h, reqs[h]);
    var u := Unlink(t, h, reqs[h].i1, reqs[h].i2);
    forall k | k in reqs - {h} ensures ChainOk(u, k, reqs[k]) {
      FinishOld(t, reqs, own, h, k);
    }
  }

  lemma Ends(t: Tables, h: nat, r: Req)
    requires Shape(t) && ChainOk(t, h, r)
    ensures h < NUM && r.i1 < NUM && r.i2 < NUM && h != r.i1 && h != r.i2 && r.i1 != r.i2
  {
  }

  lemma FinishOld(t: Tables, reqs: Reqs, own: map<nat, nat>, h: nat, k: nat)
    requires Chains(t, reqs) && Owners(t.free, reqs, own) && h in reqs && k in reqs && k != h
    requires h < NUM && reqs[h].i1 < NUM && reqs[h].i2 < NUM
    ensures ChainOk(Unlink(t, h, reqs[h].i1, reqs[h].i2), k, reqs[k])
  {
    assert ChainOk(t, k, reqs[k]) && HeadOk(own, h, reqs[h]) && HeadOk(own, k, reqs[k]);
    hide ChainOk, Owners;
    SameChain(t, Unlink(t, h, reqs[h].i1, reqs[h].i2), k, reqs[k]);
  }

  lemma FinishOwners(free: seq<bool>, reqs: Reqs, own: map<nat, nat>, h: nat)
    requires Owners(free, reqs, own) && h in reqs && h < NUM && reqs[h].i1 < NUM && reqs[h].i2 < NUM
    requires h != reqs[h].i1 && h != reqs[h].i2 && reqs[h].i1 != reqs[h].i2
    ensures var r := reqs[h];
            Owners(free[h := true][r.i1 := true][r.i2 := true], reqs - {h}, own - {h, r.i1, r.i2})
  {
    hide HeadOk, OwnerOk;
    var r := reqs[h];
    var f, o, q := free[h := true][r.i1 := true][r.i2 := true], own - {h, r.i1, r.i2}, reqs - {h};
    forall k | k in q ensures HeadOk(o, k, q[k]) {
      StillHead(free, reqs, own, h, k);
    }
    forall i | i in o ensures OwnerOk(q, o, i) {
      StillOwner(free, reqs, own, h, i);
    }
    FreeAgain(free, own, h, r.i1, r.i2);
    OwnedThree(free, reqs, own, h);
    FinishCount(reqs, own, h, r.i1, r.i2);
  }

  lemma FreeAgain(free: seq<bool>, own: map<nat, nat>, h: nat, i1: nat, i2: nat)
    requires |free| == NUM && h < NUM && i1 < NUM && i2 < NUM && h != i1 && h != i2 && i1 != i2
    requires forall i :: 0 <= i < NUM ==> (free[i] <==> i !in own)
    ensures var f, o := free[h := true][i1 := true][i2 := true], own - {h, i1, i2};
            forall i :: 0 <= i < NUM ==> (f[i] <==> i !in o)
  {
    var f, o := free[h := true][i1 := true][i2 := true], own - {h, i1, i2};
    forall i | 0 <= i < NUM ensures f[i] <==> i !in o {
      Three(free, h, i1, i2, true, true, true, i);
    }
  }

  lemma OwnedThree(free: seq<bool>, reqs: Reqs, own: map<nat, nat>, h: nat)
    requires Owners(free, reqs, own) && h in reqs
    ensures h in own && reqs[h].i1 in own && reqs[h].i2 in own
  {
    assert HeadOk(own, h, reqs[h]);
  }

  lemma StillHead(free: seq<bool>, reqs: Reqs, own: map<nat, nat>, h: nat, k: nat)
    requires Owners(free, reqs, own) && h in reqs && k in reqs && k != h
    ensures HeadOk(own - {h, reqs[h].i1, reqs[h].i2}, k, reqs[k])
  {
    assert HeadOk(own, h, reqs[h]) && HeadOk(own, k, reqs[k]);
  }

  lemma StillOwner(free: seq<bool>, reqs: Reqs, own: map<nat, nat>, h: nat, i: nat)
    requires Owners(free, reqs, own) && h in reqs && i in own && i != h && i != reqs[h].i1 && i != reqs[h].i2
    ensures OwnerOk(reqs - {h}, own - {h, reqs[h].i1, reqs[h].i2}, i)
  {
    assert OwnerOk(reqs, own, i);
  }

  lemma FinishCount(reqs: Reqs, own: map<nat, nat>, h: nat, i1: nat, i2: nat)
    requires h in reqs && h in own && i1 in own && i2 in own && h != i1 && h != i2 && i1 != i2
    ensures |reqs - {h}| == |reqs| - 1 && |own - {h, i1, i2}| == |own| - 3
  {
    assert (reqs - {h}).Keys == reqs.Keys - {h};
    assert (own - {h, i1, i2}).Keys == own.Keys - {h} - {i1} - {i2};
    assert |own.Keys - {h}| == |own.Keys| - 1 && |own.Keys - {h} - {i1}| == |own.Keys| - 2;
  }

  lemma FinishRest(v: V, h: nat)
    requires Inv(v) && h in v.reqs && v.reqs[h].phase.Acked?
    ensures Flags(v.reqs - {h}, v.busy, v.avail.q, v.used.q) && Logs(v.reqs - {h}, v.log, v.data, v.nextId)
    ensures Heads(v.avail.q, v.reqs - {h}) && Heads(v.used.q, v.reqs - {h})
  {
    hide Chains, Owners, RingOk;
    var q := v.reqs - {h};
    forall k | k in q ensures FlagOk(v.busy, v.avail.q, v.used.q, k, q[k]) && LogOk(v.log, v.data, q[k]) {
      assert FlagOk(v.busy, v.avail.q, v.used.q, k, v.reqs[k]) && LogOk(v.log, v.data, v.reqs[k]);
    }
    assert FlagOk(v.busy, v.avail.q, v.used.q, h, v.reqs[h]);
  }
}
