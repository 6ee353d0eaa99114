/** Any interleaving of callers, device and interrupts. */
module VirtioRuns {
  import opened Blocks
  import opened VirtioState
  import opened VirtioSteps

  /** A step: a buffer's holder changes it while it is in no request, a caller submits with three free
      descriptors, the device takes or completes a request of its choice, the handler acknowledges one
      entry, or a caller finds b->disk clear and returns. */
  datatype Step =
    | Fills(b: nat, block: Block)
    | Submits(b: nat, op: Op, i0: nat, i1: nat, i2: nat) | Takes | Completes(h: nat) | Acknowledges | Returns(h: nat)

  ghost predicate Enabled(v: V, e: Step) {
    match e
    case Fills(b, _) => Fresh(v, b)
    case Submits(b, op, i0, i1, i2) => Fresh(v, b) && Triple(v.t, i0, i1, i2)
    case Takes => v.avail.from != v.avail.to
    case Completes(h) => h in v.reqs && v.reqs[h].phase.Working?
    case Acknowledges => v.used.from != v.used.to
    case Returns(h) => h in v.reqs && v.reqs[h].b !in v.busy
  }

  /** The ring slots read lead to requests, and so on: what the step's effect needs to make sense. */
  ghost predicate Defined(v: V, e: Step) {
    && Shape(v.t) && |v.avail.slots| == |v.used.slots| == NUM
    && match e
       case Fills(_, _) => true
       case Submits(b, op, i0, i1, i2) => i0 < NUM && i1 < NUM && i2 < NUM
       case Takes => v.avail.q != [] && v.avail.slots[v.avail.from % NUM] in v.reqs
       case Completes(h) => h in v.reqs && h < NUM
       case Acknowledges =>
         v.used.q != [] && v.used.slots[v.used.from % NUM] in v.reqs && v.used.slots[v.used.from % NUM] < NUM
       case Returns(h) => h in v.reqs && h < NUM && v.reqs[h].i1 < NUM && v.reqs[h].i2 < NUM
  }

  ghost function Apply(v: V, e: Step): V
    requires Defined(v, e)
  {
    match e
    case Fills(b, block) => v.(data := v.data[b := block])
    case Submits(b, op, i0, i1, i2) => Submit(v, b, op, i0, i1, i2)
    case Takes => Take(v)
    case Completes(h) => Complete(v, h)
    case Acknowledges => Ack(v)
    case Returns(h) => Finish(v, h)
  }

  /** Under the invariant every enabled step makes sense. */
  lemma Ready(v: V, e: Step)
    requires Inv(v) && Enabled(v, e)
    ensures Defined(v, e)
  {
    hide Owners, Logs;
    match e
    case Fills(_, _) =>
    case Submits(b, op, i0, i1, i2) =>
    case Takes =>
      Drained(v.avail);
      TakeOk(v);
    case Completes(h) => CompleteOk(v, h);
    case Acknowledges =>
      Drained(v.used);
      AckOk(v);
    case Returns(h) => Phased(v, h);
  }

  lemma FillOk(v: V, b: nat, block: Block)
    requires Inv(v) && Fresh(v, b)
    ensures Inv(v.(data := v.data[b := block]))
  {
    hide Chains, Owners, Flags, RingOk, Heads;
    forall h | h in v.reqs ensures LogOk(v.log, v.data[b := block], v.reqs[h]) && v.reqs[h].id < v.nextId {
      assert LogOk(v.log, v.data, v.reqs[h]);
    }
  }

  lemma StepInv(v: V, e: Step)
    requires Inv(v) && Enabled(v, e) && Defined(v, e)
    ensures Inv(Apply(v, e))
  {
    hide Chains, Owners, Flags, Logs, RingOk, Heads, Triple, Fresh;
    match e
    case Fills(b, block) => FillOk(v, b, block);
    case Submits(b, op, i0, i1, i2) => SubmitOk(v, b, op, i0, i1, i2);
    case Takes => TakeOk(v);
    case Completes(h) => CompleteOk(v, h);
    case Acknowledges => AckOk(v);
    case Returns(h) =>
      RwReturns(v, h);
      FinishOk(v, h);
  }

  /** After virtio_disk_init: all descriptors free, both rings empty. */
  ghost predicate Boot(v: V) {
    && Shape(v.t) && (forall i :: 0 <= i < NUM ==> v.t.free[i]) && v.reqs == map[] && v.own == map[] && v.log == map[]
    && v.busy == {} && |v.avail.slots| == |v.used.slots| == NUM && v.avail.q == v.used.q == []
    && v.avail.from == v.avail.to == v.used.from == v.used.to == 0 && v.nextId == 0
  }

  lemma BootInv(v: V)
    requires Boot(v)
    ensures Inv(v)
  {
  }

  ghost predicate Next(v: V, e: Step, u: V) { Enabled(v, e) && Defined(v, e) && u == Apply(v, e) }

  ghost predicate IsRun(run: seq<V>, steps: seq<Step>) {
    && |run| == |steps| + 1 && Boot(run[0])
    && forall k :: 0 <= k < |steps| ==> Next(run[k], steps[k], run[k + 1])
  }

  lemma {:induction false} RunInv(run: seq<V>, steps: seq<Step>, k: nat)
    requires IsRun(run, steps) && k < |run|
    ensures Inv(run[k])
  {
    hide Inv, Enabled, Apply, Boot, Defined;
    if k == 0 {
      BootInv(run[0]);
    } else {
      RunInv(run, steps, k - 1);
      assert Next(run[k - 1], steps[k - 1], run[k - 1 + 1]);
      StepInv(run[k - 1], steps[k - 1]);
    }
  }

  /** At every moment at most two requests are in flight, so at most two entries of either ring are
      unread, whatever the 16-bit indices are. */
  lemma FewInFlight(run: seq<V>, steps: seq<Step>, k: nat)
    requires IsRun(run, steps) && k < |run|
    ensures |run[k].reqs| <= 2 && |run[k].avail.q| <= 2 && |run[k].used.q| <= 2
  {
    hide Chains, Owners, Flags, Logs, IsRun;
    RunInv(run, steps, k);
    AtMostTwo(run[k].t.free, run[k].reqs, run[k].own);
    RingsShort(run[k]);
  }

  /** The device's record is written by completions only, each for a request that was being worked on,
      and it names the buffer and operation that were submitted. */
  lemma OnlyCompletionsLog(v: V, e: Step, id: nat)
    requires Inv(v) && Enabled(v, e) && Defined(v, e) && id !in v.log && id in Apply(v, e).log
    ensures e.Completes? && e.h in v.reqs && v.reqs[e.h].id == id && v.reqs[e.h].phase.Working?
    ensures Apply(v, e).log[id].b == v.reqs[e.h].b && Apply(v, e).log[id].op == v.reqs[e.h].op
  {
    hide Owners, Flags, Logs, RingOk, Heads, ReadChain, Stored;
    if e.Completes? {
      Phased(v, e.h);
      ChainReads(v.t, e.h, v.reqs[e.h]);
    }
  }

  /** Descriptor i is one of the three of the request at head h. */
  ghost predicate InChain(v: V, h: nat, i: nat) {
    h in v.reqs && (i == h || i == v.reqs[h].i1 || i == v.reqs[h].i2)
  }

  /** At every moment of every run a descriptor is in use exactly if it is in some chain of three, and it
      is in at most one. */
  lemma OneChainEach(run: seq<V>, steps: seq<Step>, k: nat, i: nat)
    requires IsRun(run, steps) && k < |run| && i < NUM
    ensures |run[k].t.free| == NUM && (!run[k].t.free[i] <==> exists h :: InChain(run[k], h, i))
    ensures forall h, g :: InChain(run[k], h, i) && InChain(run[k], g, i) ==> h == g
  {
    hide IsRun, Chains, Flags, Logs, RingOk, Heads;
    RunInv(run, steps, k);
    var v := run[k];
    forall h | InChain(v, h, i) ensures i in v.own && v.own[i] == h {
      assert HeadOk(v.own, h, v.reqs[h]);
    }
    if !v.t.free[i] {
      assert OwnerOk(v.reqs, v.own, i);
      assert InChain(v, v.own[i], i);
    }
  }

  // ---- what each step changes ----

  /** Step e carries a block from a buffer to sector n. */
  ghost predicate Writes(v: V, e: Step, n: nat) {
    e.Completes? && e.h in v.reqs && v.reqs[e.h].op == Op(true, n)
  }

  /** Step e puts a block in buffer b. */
  ghost predicate Loads(v: V, e: Step, b: nat) {
    if e.Completes? then e.h in v.reqs && v.reqs[e.h].b == b && !v.reqs[e.h].op.write else e.Fills? && e.b == b
  }

  /** No step touches the disk but the completion of a write, and that only the sector it names. */
  lemma DiskFrame(v: V, e: Step, n: nat)
    requires Inv(v) && Enabled(v, e) && Defined(v, e)
    ensures Stored(Apply(v, e).disk, n) ==
            if Writes(v, e, n) then Stored(v.data, v.reqs[e.h].b) else Stored(v.disk, n)
  {
    hide Owners, Flags, Logs, RingOk, Heads;
    if e.Completes? {
      Phased(v, e.h);
      ChainReads(v.t, e.h, v.reqs[e.h]);
    }
  }

  /** No step touches a buffer but its holder's and the completion of a read into it. */
  lemma BufferFrame(v: V, e: Step, b: nat)
    requires Inv(v) && Enabled(v, e) && Defined(v, e)
    ensures Stored(Apply(v, e).data, b) ==
            if !Loads(v, e, b) then Stored(v.data, b)
            else if e.Fills? then e.block
            else Stored(v.disk, v.reqs[e.h].op.sector)
  {
    hide Owners, Flags, Logs, RingOk, Heads;
    if e.Completes? {
      Phased(v, e.h);
      ChainReads(v.t, e.h, v.reqs[e.h]);
    }
  }

  /** Step e is the next one in the life of the request at h. */
  ghost predicate Advances(v: V, e: Step, h: nat) {
    && h in v.reqs
    && match v.reqs[h].phase
       case Queued => e.Takes? && v.avail.q != [] && v.avail.q[0] == h
       case Working => e == Completes(h)
       case Done => e.Acknowledges? && v.used.q != [] && v.used.q[0] == h
       case Acked => e == Returns(h)
  }

  function After(ph: Phase): Phase {
    match ph case Queued => Working case Working => Done case _ => Acked
  }

  /** A request moves on at its own steps only: taken by the device, completed, acknowledged, and at the
      return it is gone and its three descriptors are free. */
  lemma Moves(v: V, e: Step, h: nat)
    requires Inv(v) && Enabled(v, e) && Defined(v, e) && h in v.reqs
    ensures var u := Apply(v, e);
            if !Advances(v, e, h) then h in u.reqs && u.reqs[h] == v.reqs[h]
            else if e.Returns? then h !in u.reqs
            else h in u.reqs && u.reqs[h] == v.reqs[h].(phase := After(v.reqs[h].phase))
    ensures e == Returns(h) ==>
      forall i :: 0 <= i < NUM ==> Apply(v, e).t.free[i] == (v.t.free[i] || InChain(v, h, i))
  {
    hide Owners, Logs, Chains;
    Phased(v, h);
    match e
    case Fills(_, _) =>
    case Submits(_, _, i0, i1, i2) => SubmitOk(v, e.b, e.op, i0, i1, i2);
    case Takes =>
      Drained(v.avail);
      TakeOk(v);
    case Completes(_) =>
    case Acknowledges =>
      Drained(v.used);
      AckOk(v);
    case Returns(_) =>
  }

  /** As long as a request is in flight, one of the requests in flight can move on. */
  lemma SomeAdvances(v: V, h: nat) returns (e: Step, g: nat)
    requires Inv(v) && h in v.reqs
    ensures Enabled(v, e) && Advances(v, e, g)
  {
    hide Owners, Logs, Chains;
    Phased(v, h);
    Drained(v.avail);
    Drained(v.used);
    match v.reqs[h].phase
    case Queued =>
      e, g := Takes, v.avail.q[0];
      Phased(v, g);
    case Working => e, g := Completes(h), h;
    case Done =>
      e, g := Acknowledges, v.used.q[0];
      Phased(v, g);
    case Acked => e, g := Returns(h), h;
  }

  // ---- what the disk and the buffers hold ----

  /** Step m is the last before moment k that writes sector n. */
  ghost predicate LastWrite(run: seq<V>, steps: seq<Step>, n: nat, m: nat, k: nat) {
    && m < k <= |steps| && k < |run| && Writes(run[m], steps[m], n)
    && forall i :: m < i < k ==> !Writes(run[i], steps[i], n)
  }

  /** Step m is the last before moment k that puts a block in buffer b. */
  ghost predicate LastLoad(run: seq<V>, steps: seq<Step>, b: nat, m: nat, k: nat) {
    && m < k <= |steps| && k < |run| && Loads(run[m], steps[m], b)
    && forall i :: m < i < k ==> !Loads(run[i], steps[i], b)
  }

  /** A sector nobody wrote from moment m up to moment k holds at k what it held at m. */
  lemma {:induction false} SectorKept(run: seq<V>, steps: seq<Step>, n: nat, m: nat, k: nat)
    requires IsRun(run, steps) && m <= k < |run| && forall i :: m <= i < k ==> !Writes(run[i], steps[i], n)
    ensures Stored(run[k].disk, n) == Stored(run[m].disk, n)
  {
    hide Inv, Enabled, Apply, Boot, Defined, Writes;
    if m < k {
      SectorKept(run, steps, n, m, k - 1);
      RunInv(run, steps, k - 1);
      assert Next(run[k - 1], steps[k - 1], run[k - 1 + 1]);
      DiskFrame(run[k - 1], steps[k - 1], n);
    }
  }

  lemma {:induction false} BufferKept(run: seq<V>, steps: seq<Step>, b: nat, m: nat, k: nat)
    requires IsRun(run, steps) && m <= k < |run| && forall i :: m <= i < k ==> !Loads(run[i], steps[i], b)
    ensures Stored(run[k].data, b) == Stored(run[m].data, b)
  {
    hide Inv, Enabled, Apply, Boot, Defined, Loads;
    if m < k {
      BufferKept(run, steps, b, m, k - 1);
      RunInv(run, steps, k - 1);
      assert Next(run[k - 1], steps[k - 1], run[k - 1 + 1]);
      BufferFrame(run[k - 1], steps[k - 1], b);
    }
  }

  /** At every moment of every run a sector holds the block of the last write to it that the device has
      completed: what the buffer of that write held when virtio_disk_rw was called, at step j. */
  lemma DiskHolds(run: seq<V>, steps: seq<Step>, n: nat, m: nat, k: nat) returns (j: nat)
    requires IsRun(run, steps) && LastWrite(run, steps, n, m, k)
    ensures j < m && steps[j].Submits? && steps[j].op == Op(true, n) && steps[j].i0 == steps[m].h
    ensures SameRequest(run, steps[m].h, j, m) && Stored(run[k].disk, n) == Stored(run[j].data, steps[j].b)
  {
    hide Inv, Enabled, Apply, Boot, Defined;
    RunInv(run, steps, m);
    assert Next(run[m], steps[m], run[m + 1]);
    DiskFrame(run[m], steps[m], n);
    SectorKept(run, steps, n, m + 1, k);
    j := SubmittedBefore(run, steps, m, steps[m].h);
  }

  /** Before the first write to it a sector holds what it held at the start. */
  lemma DiskUnwritten(run: seq<V>, steps: seq<Step>, n: nat, k: nat)
    requires IsRun(run, steps) && k < |run| && forall m :: !LastWrite(run, steps, n, m, k)
    ensures Stored(run[k].disk, n) == Stored(run[0].disk, n)
  {
    hide IsRun, Writes;
    RunLength(run, steps);
    if i :| 0 <= i < k && Writes(run[i], steps[i], n) {
      var m := LatestWrite(run, steps, n, i, k);
      assert false;
    }
    SectorKept(run, steps, n, 0, k);
  }

  lemma RunLength(run: seq<V>, steps: seq<Step>)
    requires IsRun(run, steps)
    ensures |run| == |steps| + 1
  {
  }

  lemma {:induction false} LatestWrite(run: seq<V>, steps: seq<Step>, n: nat, i: nat, k: nat) returns (m: nat)
    requires i < k <= |steps| && k < |run| && Writes(run[i], steps[i], n)
    ensures i <= m && LastWrite(run, steps, n, m, k)
    decreases k - i
  {
    hide Writes;
    if next :| i < next < k && Writes(run[next], steps[next], n) {
      m := LatestWrite(run, steps, n, next, k);
    } else {
      m := i;
    }
  }

  /** A buffer holds what was last put in it: its holder's bytes, or the sector of the last read into it
      as the disk had it when the device carried that read out. */
  lemma BufferHolds(run: seq<V>, steps: seq<Step>, b: nat, m: nat, k: nat)
    requires IsRun(run, steps) && LastLoad(run, steps, b, m, k)
    ensures Stored(run[k].data, b) ==
            if steps[m].Fills? then steps[m].block else Stored(run[m].disk, run[m].reqs[steps[m].h].op.sector)
  {
    hide Inv, Enabled, Apply, Boot, Defined;
    RunInv(run, steps, m);
    assert Next(run[m], steps[m], run[m + 1]);
    BufferFrame(run[m], steps[m], b);
    BufferKept(run, steps, b, m + 1, k);
  }

  // ---- each request and its own completion ----

  ghost predicate Served(r: Req) { r.phase.Done? || r.phase.Acked? }

  /** What a step leaves alone of a request that it does not submit: its identity; that it is served,
      unless the step completes it; and the buffer, unless the step completes it as a read. */
  lemma Persists(v: V, e: Step, h: nat)
    requires Inv(v) && Enabled(v, e) && Defined(v, e) && h in Apply(v, e).reqs && !(e.Submits? && e.i0 == h)
    ensures var u := Apply(v, e);
            && h in v.reqs && u.reqs[h] == v.reqs[h].(phase := u.reqs[h].phase)
            && (Served(u.reqs[h]) && e != Completes(h) ==> Served(v.reqs[h]))
            && (e != Completes(h) || v.reqs[h].op.write ==> Stored(u.data, v.reqs[h].b) == Stored(v.data, v.reqs[h].b))
  {
    hide Owners, Logs, RingOk;
    if e.Completes? {
      Phased(v, e.h);
      ChainReads(v.t, e.h, v.reqs[e.h]);
    } else if e.Acknowledges? {
      Drained(v.used);
      AckOk(v);
      Phased(v, v.used.q[0]);
    } else if e.Takes? {
      Drained(v.avail);
      TakeOk(v);
    }
  }

  /** Every request in flight was submitted, with this buffer and operation, by an earlier step, and has
      been in flight since; what a write is to store is what the buffer held then. */
  lemma {:induction false} SubmittedBefore(run: seq<V>, steps: seq<Step>, k: nat, h: nat) returns (j: nat)
    requires IsRun(run, steps) && k < |run| && h in run[k].reqs
    ensures j < k && SameRequest(run, h, j, k) && Submitted(run, steps, h, j, k)
  {
    hide Inv, Enabled, Apply, Boot, Defined;
    RunInv(run, steps, k);
    assert k > 0 by { assert Boot(run[0]) ==> run[0].reqs == map[] by { BootEmpty(run[0]); } }
    var v, e := run[k - 1], steps[k - 1];
    assert Next(v, e, run[k - 1 + 1]);
    RunInv(run, steps, k - 1);
    if e.Submits? && e.i0 == h {
      JustSubmitted(v, e);
      return k - 1;
    }
    Persists(v, e, h);
    j := SubmittedBefore(run, steps, k - 1, h);
  }

  lemma BootEmpty(v: V)
    ensures Boot(v) ==> v.reqs == map[]
  {
  }

  lemma JustSubmitted(v: V, e: Step)
    requires e.Submits? && Defined(v, e)
    ensures var u := Apply(v, e);
            e.i0 in u.reqs && u.reqs[e.i0].b == e.b && u.reqs[e.i0].op == e.op && u.data == v.data
  {
  }

  /** From just after step j up to moment k, head h belongs to one request. */
  ghost predicate SameRequest(run: seq<V>, h: nat, j: nat, k: nat)
    requires k < |run| && h in run[k].reqs
  {
    forall n :: j < n <= k ==> h in run[n].reqs && run[n].reqs[h] == run[k].reqs[h].(phase := run[n].reqs[h].phase)
  }

  ghost predicate Submitted(run: seq<V>, steps: seq<Step>, h: nat, j: nat, k: nat)
    requires j < |steps| && j < |run| && k < |run| && h in run[k].reqs
  {
    var r := run[k].reqs[h];
    && steps[j].Submits? && steps[j].b == r.b && steps[j].op == r.op && steps[j].i0 == h
    && (r.op.write ==> Stored(run[k].data, r.b) == Stored(run[j].data, r.b))
  }

  /** Every request that is served was completed by an earlier step, and a block read is the one the
      disk held then. */
  lemma {:induction false} CompletedBefore(run: seq<V>, steps: seq<Step>, k: nat, h: nat) returns (m: nat)
    requires IsRun(run, steps) && k < |run| && h in run[k].reqs && Served(run[k].reqs[h])
    ensures m < k && SameRequest(run, h, m, k) && Completed(run, steps, h, m, k)
  {
    hide Inv, Enabled, Apply, Boot, Defined;
    RunInv(run, steps, k);
    assert k > 0 by { assert Boot(run[0]) ==> run[0].reqs == map[] by { BootEmpty(run[0]); } }
    var v, e := run[k - 1], steps[k - 1];
    assert Next(v, e, run[k - 1 + 1]);
    RunInv(run, steps, k - 1);
    NotYet(v, e, h);
    Persists(v, e, h);
    if e == Completes(h) {
      JustCompleted(v, h);
      return k - 1;
    }
    m := CompletedBefore(run, steps, k - 1, h);
  }

  lemma NotYet(v: V, e: Step, h: nat)
    requires Defined(v, e) && h in Apply(v, e).reqs && Served(Apply(v, e).reqs[h])
    ensures !(e.Submits? && e.i0 == h)
  {
  }

  /** The device moves the block the request names between its buffer and its sector. */
  lemma JustCompleted(v: V, h: nat)
    requires Inv(v) && Enabled(v, Completes(h)) && Defined(v, Completes(h))
    ensures var r, u := v.reqs[h], Apply(v, Completes(h));
            if r.op.write then Stored(u.disk, r.op.sector) == Stored(v.data, r.b)
            else Stored(u.data, r.b) == Stored(v.disk, r.op.sector)
  {
    Phased(v, h);
    ChainReads(v.t, h, v.reqs[h]);
  }

  ghost predicate Completed(run: seq<V>, steps: seq<Step>, h: nat, m: nat, k: nat)
    requires m < |steps| && m + 1 < |run| && k < |run| && h in run[k].reqs
  {
    var r := run[k].reqs[h];
    && steps[m] == Completes(h) && h in run[m].reqs && run[m].reqs[h] == r.(phase := run[m].reqs[h].phase)
    && if r.op.write then Stored(run[m + 1].disk, r.op.sector) == Stored(run[m].data, r.b)
       else Stored(run[k].data, r.b) == Stored(run[m].disk, r.op.sector)
  }

  /** virtio_disk_rw returns only after the device has completed that same request: when it returns from
      head h, some earlier step j submitted this buffer and operation at h, a step m in between was the
      device's completion of it, and h stood for this request all along. A write put the block that the
      buffer held at its submission on the disk at m; a read has left in the buffer what the disk held
      at m. */
  lemma ReturnsAfterCompletion(run: seq<V>, steps: seq<Step>, k: nat) returns (j: nat, m: nat)
    requires IsRun(run, steps) && k < |steps| && steps[k].Returns?
    ensures steps[k].h in run[k].reqs && j < m < k
    ensures var h, r := steps[k].h, run[k].reqs[steps[k].h];
            && SameRequest(run, h, j, k)
            && steps[j].Submits? && steps[j].b == r.b && steps[j].op == r.op && steps[j].i0 == h
            && steps[m] == Completes(h)
            && if r.op.write then Stored(run[m + 1].disk, r.op.sector) == Stored(run[j].data, r.b)
               else Stored(run[k].data, r.b) == Stored(run[m].disk, r.op.sector)
  {
    hide Inv, Apply, Boot, Defined;
    RunInv(run, steps, k);
    assert Next(run[k], steps[k], run[k + 1]);
    var h := steps[k].h;
    RwReturns(run[k], h);
    m := CompletedBefore(run, steps, k, h);
    j := SubmittedBefore(run, steps, m, h);
  }
}
