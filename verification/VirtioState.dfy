/** The virtio disk driver and its device over one split ring: what both sides can see, and the
    invariant of their protocol. */
module VirtioState {
  import opened Arith
  import opened Collections
  import opened Blocks

  const NUM: nat := 8
  const WRAP: nat := 0x1_0000          // ring indices are 16 bits wide

  /** What a descriptor points at: a command header, a buffer's data, or a status byte. */
  datatype Addr = Nowhere | Header(i: nat) | Data(b: nat) | StatusOf(i: nat)

  datatype Desc = Desc(addr: Addr, len: nat, next: nat, hasNext: bool, deviceWrites: bool)

  const NONE: Desc := Desc(Nowhere, 0, 0, false, false)

  datatype Op = Op(write: bool, sector: nat)

  /** b is 0 when there is no buffer; status is 0xff until the device stores 0. */
  datatype Info = Info(b: nat, status: nat)

  /** The driver's tables. */
  datatype Tables = Tables(free: seq<bool>, desc: seq<Desc>, ops: seq<Op>, info: seq<Info>)

  predicate Shape(t: Tables) { |t.free| == |t.desc| == |t.ops| == |t.info| == NUM }

  datatype Phase = Queued | Working | Done | Acked

  /** A request on buffer b: its descriptors are its head, i1 and i2; `id` tells it from all others,
      past and future. */
  datatype Req = Req(b: nat, op: Op, i1: nat, i2: nat, phase: Phase, id: nat)

  type Reqs = map<nat, Req>

  /** What the device did for a request: which buffer, which operation, and the block it moved. */
  datatype Did = Did(b: nat, op: Op, block: Block)

  /** A ring, the index its reader has reached, the index its writer has reached, and the heads that
      are unread. */
  datatype Ring = Ring(slots: seq<nat>, from: nat, to: nat, q: seq<nat>)

  /** All of it: the tables, the available ring (read by the device), the used ring (read by the
      driver), the buffers with b->disk set, memory and disk contents; and for the proofs the
      requests by head, the head of every descriptor in use, the next request's id, and what the
      device has done so far. */
  datatype V = V(t: Tables, avail: Ring, used: Ring, busy: set<nat>, data: map<nat, Block>, disk: map<nat, Block>,
                 reqs: Reqs, own: map<nat, nat>, nextId: nat, log: map<nat, Did>)

  // ---- the invariant ----

  /** Three descriptors linked as virtio_disk_rw formats them, with the buffer and the status. */
  predicate ChainOk(t: Tables, h: nat, r: Req)
    requires Shape(t)
  {
    && h < NUM && r.i1 < NUM && r.i2 < NUM && h != r.i1 && h != r.i2 && r.i1 != r.i2
    && t.desc[h] == Desc(Header(h), 16, r.i1, true, false)
    && t.desc[r.i1] == Desc(Data(r.b), BSIZE, r.i2, true, !r.op.write)
    && t.desc[r.i2] == Desc(StatusOf(h), 1, 0, false, true)
    && t.ops[h] == r.op
    && r.b != 0 && t.info[h] == Info(r.b, if r.phase.Queued? || r.phase.Working? then 0xff else 0)
  }

  ghost predicate Chains(t: Tables, reqs: Reqs) {
    Shape(t) && forall h {:trigger ChainOk(t, h, reqs[h])} :: h in reqs ==> ChainOk(t, h, reqs[h])
  }

  predicate HeadOk(own: map<nat, nat>, h: nat, r: Req) {
    && h in own && own[h] == h && r.i1 in own && own[r.i1] == h && r.i2 in own && own[r.i2] == h
  }

  predicate OwnerOk(reqs: Reqs, own: map<nat, nat>, i: nat)
    requires i in own
  {
    i < NUM && own[i] in reqs && (i == own[i] || i == reqs[own[i]].i1 || i == reqs[own[i]].i2)
  }

  /** Every descriptor is free or in exactly one chain. */
  ghost predicate Owners(free: seq<bool>, reqs: Reqs, own: map<nat, nat>) {
    && |free| == NUM && (forall i :: 0 <= i < NUM ==> (free[i] <==> i !in own))
    && (forall h {:trigger HeadOk(own, h, reqs[h])} :: h in reqs ==> HeadOk(own, h, reqs[h]))
    && (forall i {:trigger OwnerOk(reqs, own, i)} :: i in own ==> OwnerOk(reqs, own, i))
    && |own| == 3 * |reqs|
  }

  predicate FlagOk(busy: set<nat>, queue: seq<nat>, done: seq<nat>, h: nat, r: Req) {
    && (r.b in busy <==> !r.phase.Acked?) && (r.phase.Queued? <==> h in queue) && (r.phase.Done? <==> h in done)
  }

  /** b->disk and the rings agree with the phases, and every request's buffer is its own. */
  ghost predicate Flags(reqs: Reqs, busy: set<nat>, queue: seq<nat>, done: seq<nat>) {
    && (forall h {:trigger FlagOk(busy, queue, done, h, reqs[h])} :: h in reqs ==>
          FlagOk(busy, queue, done, h, reqs[h]))
    && (forall h, k :: h in reqs && k in reqs && h != k ==> reqs[h].b != reqs[k].b)
  }

  /** The device has done the request exactly if its phase says so; what it did is what was asked, and
      a block read is in the buffer. */
  predicate LogOk(log: map<nat, Did>, data: map<nat, Block>, r: Req) {
    && (r.id in log <==> r.phase.Done? || r.phase.Acked?)
    && (r.id in log ==> log[r.id].b == r.b && log[r.id].op == r.op)
    && (r.id in log && !r.op.write ==> r.b in data && data[r.b] == log[r.id].block)
  }

  ghost predicate Logs(reqs: Reqs, log: map<nat, Did>, data: map<nat, Block>, nextId: nat) {
    && (forall h {:trigger LogOk(log, data, reqs[h])} :: h in reqs ==> LogOk(log, data, reqs[h]) && reqs[h].id < nextId)
    && (forall h, k :: h in reqs && k in reqs && h != k ==> reqs[h].id != reqs[k].id)
    && (forall n :: n in log ==> n < nextId)
  }

  function Slot(from: nat, k: nat): (i: nat)
    ensures i < NUM
  {
    (from + k) % NUM
  }

  /** The unread slots, from the reader's index up to the writer's, hold q. */
  ghost predicate RingOk(r: Ring) {
    && |r.slots| == NUM && |r.q| < NUM && r.from < WRAP && r.to == (r.from + |r.q|) % WRAP && Distinct(r.q)
    && forall k :: 0 <= k < |r.q| ==> r.slots[Slot(r.from, k)] == r.q[k]
  }

  ghost predicate Heads(q: seq<nat>, reqs: Reqs) { forall k :: 0 <= k < |q| ==> q[k] in reqs }

  ghost predicate Inv(v: V) {
    && Chains(v.t, v.reqs) && Owners(v.t.free, v.reqs, v.own) && Flags(v.reqs, v.busy, v.avail.q, v.used.q)
    && Logs(v.reqs, v.log, v.data, v.nextId)
    && RingOk(v.avail) && RingOk(v.used) && Heads(v.avail.q, v.reqs) && Heads(v.used.q, v.reqs)
  }

  // ---- counting ----

  lemma {:induction false} Below(n: nat, s: set<nat>)
    requires forall x :: x in s ==> x < n
    ensures |s| <= n
  {
    if n > 0 {
      Below(n - 1, s - {n - 1});
    }
  }

  /** At most two requests are in flight. */
  lemma AtMostTwo(free: seq<bool>, reqs: Reqs, own: map<nat, nat>)
    requires Owners(free, reqs, own)
    ensures |reqs| <= 2
  {
    forall i | i in own.Keys ensures i < NUM {
      assert OwnerOk(reqs, own, i);
    }
    Below(NUM, own.Keys);
  }

  lemma {:induction false} DistinctCount(q: seq<nat>, s: set<nat>)
    requires Distinct(q) && forall k :: 0 <= k < |q| ==> q[k] in s
    ensures |q| <= |s|
  {
    if q != [] {
      var l := |q| - 1;
      DistinctCount(q[..l], s - {q[l]});
    }
  }

  /** So at most two entries of a ring are unread. */
  lemma RingsShort(v: V)
    requires Inv(v)
    ensures |v.avail.q| <= 2 && |v.used.q| <= 2
  {
    hide Chains, Owners, Flags, Logs;
    AtMostTwo(v.t.free, v.reqs, v.own);
    DistinctCount(v.avail.q, v.reqs.Keys);
    DistinctCount(v.used.q, v.reqs.Keys);
  }

  // ---- rings ----

  function Inc(x: nat): nat { (x + 1) % WRAP }

  lemma SlotMod(x: nat)
    ensures x % WRAP % NUM == x % NUM
  {
    var q, r := x / WRAP, x % WRAP;
    assert x == (q * 8192 + r / NUM) * NUM + r % NUM;
    DivMod(q * 8192 + r / NUM, NUM, r % NUM);
  }

  function Push(r: Ring, h: nat): Ring
    requires |r.slots| == NUM
  {
    Ring(r.slots[r.to % NUM := h], r.from, Inc(r.to), r.q + [h])
  }

  /** Writing at the ring's end overwrites nothing unread, even as the index wraps. */
  lemma PushOk(r: Ring, h: nat)
    requires RingOk(r) && |r.q| + 1 < NUM && h !in r.q
    ensures RingOk(Push(r, h))
  {
    var t := Push(r, h);
    SlotMod(r.from + |r.q|);
    assert Inc(r.to) == (r.from + |r.q| + 1) % WRAP;
    forall k | 0 <= k < |t.q| ensures t.slots[Slot(t.from, k)] == t.q[k] {
      if k < |r.q| {
        SlotsApart(r.from, k, |r.q|);
      }
    }
  }

  lemma SlotsApart(from: nat, j: nat, k: nat)
    requires j < k < NUM
    ensures (from + j) % NUM != (from + k) % NUM
  {
  }

  function Pop(r: Ring): Ring
    requires r.q != []
  {
    Ring(r.slots, Inc(r.from), r.to, r.q[1..])
  }

  lemma PopOk(r: Ring)
    requires RingOk(r) && r.q != []
    ensures r.slots[r.from % NUM] == r.q[0] && r.from != r.to && RingOk(Pop(r))
    ensures r.q[0] !in r.q[1..] && forall x :: x in r.q <==> x == r.q[0] || x in r.q[1..]
  {
    var t := Pop(r);
    assert r.slots[Slot(r.from, 0)] == r.q[0];
    IndexMoves(r.from, |r.q|);
    forall k | 0 <= k < |t.q| ensures t.slots[Slot(t.from, k)] == t.q[k] {
      PopSlot(r.from, k);
    }
    PopEnd(r.from, |r.q|);
    assert r.q == [r.q[0]] + r.q[1..];
  }

  lemma IndexMoves(from: nat, n: nat)
    requires 0 < n < NUM && from < WRAP
    ensures from != (from + n) % WRAP
  {
  }

  lemma PopSlot(from: nat, k: nat)
    ensures Slot(Inc(from), k) == Slot(from, k + 1)
  {
    SlotMod(from + 1);
    SlotShift(Inc(from), from + 1, k);
  }

  /** Where a shift leads depends on the slot only. */
  lemma SlotShift(a: nat, b: nat, k: nat)
    requires a % NUM == b % NUM
    ensures (a + k) % NUM == (b + k) % NUM
  {
    var r := a % NUM + k;
    assert a + k == (a / NUM + r / NUM) * NUM + r % NUM;
    assert b + k == (b / NUM + r / NUM) * NUM + r % NUM;
    DivMod(a / NUM + r / NUM, NUM, r % NUM);
    DivMod(b / NUM + r / NUM, NUM, r % NUM);
  }

  lemma PopEnd(from: nat, n: nat)
    requires n >= 1
    ensures (Inc(from) + (n - 1)) % WRAP == (from + n) % WRAP
  {
  }

  /** The reader has caught up exactly when the two indices are equal. */
  lemma Drained(r: Ring)
    requires RingOk(r)
    ensures r.q == [] <==> r.from == r.to
  {
    if r.q != [] {
      IndexMoves(r.from, |r.q|);
    }
  }
}
