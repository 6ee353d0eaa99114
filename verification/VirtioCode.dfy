/** virtio_disk.c as it runs: descriptors taken and given back, requests submitted, the interrupt
    handler's loop. Waiting is left to the steps in VirtioRuns. */
module VirtioCode {
  import opened Blocks
  import opened VirtioState
  import opened VirtioSteps

  /** The driver's chains are untouched, whatever happened to free descriptors. */
  ghost predicate SpareOnly(t: Tables, u: Tables) {
    && Shape(t) && Shape(u) && u.free == t.free && u.ops == t.ops && u.info == t.info
    && forall i :: 0 <= i < NUM && !t.free[i] ==> u.desc[i] == t.desc[i]
  }

  lemma SpareInv(v: V, u: Tables)
    requires Inv(v) && SpareOnly(v.t, u)
    ensures Inv(v.(t := u))
  {
    hide Flags, Logs, RingOk, ChainOk, Owners, Heads;
    forall h | h in v.reqs ensures ChainOk(u, h, v.reqs[h]) {
      SpareChain(v, u, h);
    }
  }

  lemma SpareChain(v: V, u: Tables, h: nat)
    requires Chains(v.t, v.reqs) && Owners(v.t.free, v.reqs, v.own) && SpareOnly(v.t, u) && h in v.reqs
    ensures ChainOk(u, h, v.reqs[h])
  {
    assert ChainOk(v.t, h, v.reqs[h]) && HeadOk(v.own, h, v.reqs[h]);
    SameChain(v.t, u, h, v.reqs[h]);
  }

  /** free_desc's effect on the tables. */
  function GiveBack(t: Tables, i: nat): Tables
    requires Shape(t) && i < NUM
  {
    t.(free := t.free[i := true], desc := t.desc[i := NONE])
  }

  class Driver {
    var v: V

    /** alloc_desc: the lowest free descriptor, now taken, or -1. */
    method AllocDesc() returns (i: int)
      requires Shape(v.t)
      modifies this
      ensures i == -1 ==> v == old(v) && forall k :: 0 <= k < NUM ==> !v.t.free[k]
      ensures i != -1 ==> 0 <= i < NUM && old(v).t.free[i] && (forall k :: 0 <= k < i ==> !old(v).t.free[k])
      ensures i != -1 ==> v == old(v).(t := old(v).t.(free := old(v).t.free[i := false])) && Shape(v.t)
    {
      i := 0;
      while i < NUM
        invariant 0 <= i <= NUM && v == old(v) && forall k :: 0 <= k < i ==> !v.t.free[k]
      {
        if v.t.free[i] {
          v := v.(t := v.t.(free := v.t.free[i := false]));
          return;
        }
        i := i + 1;
      }
      i := -1;
    }

    /** free_desc: the descriptor must be in use, or the source panics. */
    method FreeDesc(i: nat)
      requires Shape(v.t) && i < NUM && !v.t.free[i]
      modifies this
      ensures v == old(v).(t := GiveBack(old(v).t, i)) && Shape(v.t)
    {
      v := v.(t := GiveBack(v.t, i));
    }

    /** alloc3_desc: three free descriptors, or none taken. */
    method Alloc3Desc() returns (ok: bool, i0: nat, i1: nat, i2: nat)
      requires Shape(v.t)
      modifies this
      ensures ok ==> Triple(old(v).t, i0, i1, i2)
      ensures ok ==> v == old(v).(t := old(v).t.(free := old(v).t.free[i0 := false][i1 := false][i2 := false]))
      ensures !ok ==> v == old(v).(t := v.t) && SpareOnly(old(v).t, v.t)
      ensures !ok ==> forall a, b, c :: !Triple(old(v).t, a, b, c)
    {
      hide Triple;
      i0, i1, i2 := 0, 0, 0;
      ghost var t := v.t;
      var a := AllocDesc();
      if a == -1 {
        TooFew(t, v.t.free, 0, 0);
        return false, 0, 0, 0;
      }
      var b := AllocDesc();
      if b == -1 {
        TooFew(t, v.t.free, a, a);
        FreeDesc(a);
        return false, 0, 0, 0;
      }
      var c := AllocDesc();
      if c == -1 {
        TooFew(t, v.t.free, a, b);
        FreeDesc(a);
        FreeDesc(b);
        return false, 0, 0, 0;
      }
      IsTriple(t, a, b, c);
      return true, a, b, c;
    }

    /** virtio_disk_rw up to its sleep: the request is formatted and queued, or there are not three
        free descriptors and nothing has changed that matters. */
    method Start(b: nat, op: Op) returns (ok: bool, h: nat)
      requires Inv(v) && Fresh(v, b)
      modifies this
      ensures Inv(v)
      ensures ok ==> h < NUM && h !in old(v).reqs && h in v.reqs && v.reqs[h].b == b && v.reqs[h].op == op
                     && v.reqs[h].phase.Queued? && v.reqs[h].id == old(v).nextId
      ensures ok ==> Triple(old(v).t, h, v.reqs[h].i1, v.reqs[h].i2)
                     && v.t.free == old(v).t.free[h := false][v.reqs[h].i1 := false][v.reqs[h].i2 := false]
      ensures ok ==> v.busy == old(v).busy + {b} && v.reqs == old(v).reqs[h := v.reqs[h]]
                     && v.avail.q == old(v).avail.q + [h]
      ensures v.disk == old(v).disk && v.data == old(v).data && v.log == old(v).log && v.used == old(v).used
      ensures !ok ==> v == old(v).(t := v.t) && SpareOnly(old(v).t, v.t)
      ensures !ok ==> forall x, y, z :: !Triple(old(v).t, x, y, z)
    {
      hide Chains, Owners, Flags, Logs, RingOk, Heads, SpareOnly, ChainOk;
      Shapes(v);
      var i1, i2;
      ghost var v0 := v;
      ok, h, i1, i2 := Alloc3Desc();
      if !ok {
        SpareInv(v0, v.t);
        return;
      }
      SubmitOk(v0, b, op, h, i1, i2);
      v := Submit(v, b, op, h, i1, i2);
      Reformat(v0.t, b, op, h, i1, i2);
      assert v == Submit(v0, b, op, h, i1, i2);
    }

    /** free_chain: follows the links of the chain at h and gives back its three descriptors. */
    method FreeChain(h: nat, ghost i1: nat, ghost i2: nat)
      requires Shape(v.t) && Linked(v.t, h, i1, i2)
      modifies this
      ensures v == old(v).(t := Unlinked(old(v).t, h, i1, i2))
    {
      var i := h;
      ghost var k := 0;
      ghost var t0 := v.t;
      while true
        invariant 0 <= k < 3 && i == (if k == 0 then h else if k == 1 then i1 else i2) && Shape(v.t)
        invariant v == old(v).(t := v.t)
        invariant v.t == Partly(t0, h, i1, k)
        decreases 3 - k
      {
        var flag, nxt := v.t.desc[i].hasNext, v.t.desc[i].next;
        FreeDesc(i);
        if flag {
          i := nxt;
          k := k + 1;
        } else {
          break;
        }
      }
    }

    /** The end of virtio_disk_rw, once b->disk is clear: the device has done this request, and its
        descriptors are free again. */
    method End(h: nat)
      requires Inv(v) && h in v.reqs && v.reqs[h].b !in v.busy
      modifies this
      ensures Inv(v) && v.reqs == old(v).reqs - {h} && v.data == old(v).data && v.disk == old(v).disk
      ensures v.log == old(v).log && v.busy == old(v).busy && v.avail == old(v).avail && v.used == old(v).used
      ensures var r := old(v).reqs[h];
              h < NUM && r.i1 < NUM && r.i2 < NUM && |old(v).t.free| == NUM
              && v.t.free == old(v).t.free[h := true][r.i1 := true][r.i2 := true]
      ensures var r := old(v).reqs[h];
              && r.id in v.log && v.log[r.id].b == r.b && v.log[r.id].op == r.op
              && (!r.op.write ==> r.b in v.data && v.data[r.b] == v.log[r.id].block)
    {
      hide Chains, Owners, Flags, Logs, RingOk, Heads, Linked;
      ghost var v0 := v;
      RwReturns(v, h);
      FinishOk(v, h);
      var i1, i2 := v.reqs[h].i1, v.reqs[h].i2;
      ChainLinked(v, h);
      v := v.(t := v.t.(info := v.t.info[h := v.t.info[h].(b := 0)]));
      FreeChain(h, i1, i2);
      v := v.(reqs := v.reqs - {h}, own := v.own - {h, i1, i2});
      assert v == Finish(v0, h);
    }

    /** virtio_disk_intr's loop: every entry of the used ring so far is acknowledged, and the panic on a
        bad status cannot happen. Only the buffers of requests that the device has done are released. */
    method Intr()
      requires Inv(v)
      modifies this
      ensures Inv(v) && v.used.q == [] && v.reqs.Keys == old(v).reqs.Keys
      ensures forall h :: h in v.reqs ==> SameButAcked(old(v).reqs, v.reqs, h)
      ensures forall b :: b in v.busy <==> b in old(v).busy && !Released(old(v).reqs, v.reqs, b)
      ensures v.data == old(v).data && v.disk == old(v).disk && v.log == old(v).log
      ensures v.t == old(v).t && v.avail == old(v).avail
    {
      hide Chains, Owners, Flags, Logs, RingOk, Heads, SameButAcked, Released;
      AckedNone(v.reqs);
      Drains(v);
      while v.used.from != v.used.to
        invariant Inv(v) && v.reqs.Keys == old(v).reqs.Keys && (v.used.q == [] <==> v.used.from == v.used.to)
        invariant forall h :: h in v.reqs ==> SameButAcked(old(v).reqs, v.reqs, h)
        invariant forall b :: b in v.busy <==> b in old(v).busy && !Released(old(v).reqs, v.reqs, b)
        invariant v.data == old(v).data && v.disk == old(v).disk && v.log == old(v).log
        invariant v.t == old(v).t && v.avail == old(v).avail
        decreases |v.used.q|
      {
        AckOk(v);
        Shapes(v);
        ReportedDone(v, v.used.q[0]);
        AckedMore(old(v).reqs, v.reqs, v.used.q[0]);
        ReleasedMore(old(v).reqs, v.reqs, v.used.q[0]);
        SizeOf(v);
        v := Ack(v);
        Drains(v);
      }
    }
  }

  /** With at most a and b free there are no three. */
  lemma TooFew(t: Tables, f: seq<bool>, a: nat, b: nat)
    requires Shape(t) && |f| == NUM && (forall k :: 0 <= k < NUM ==> !f[k])
    requires forall k :: 0 <= k < NUM && k != a && k != b ==> f[k] == t.free[k]
    ensures forall x, y, z :: !Triple(t, x, y, z)
  {
  }

  lemma IsTriple(t: Tables, a: nat, b: nat, c: nat)
    requires Shape(t) && a < NUM && b < NUM && c < NUM && a != b && a != c && b != c && t.free[a] && t.free[b]
    requires t.free[c]
    ensures Triple(t, a, b, c)
  {
  }

  predicate Linked(t: Tables, h: nat, i1: nat, i2: nat)
    requires Shape(t)
  {
    && h < NUM && i1 < NUM && i2 < NUM && h != i1 && h != i2 && i1 != i2
    && t.desc[h].hasNext && t.desc[h].next == i1 && t.desc[i1].hasNext && t.desc[i1].next == i2 && !t.desc[i2].hasNext
    && !t.free[h] && !t.free[i1] && !t.free[i2]
  }

  /** free_chain has given back k descriptors. */
  function Partly(t: Tables, h: nat, i1: nat, k: nat): Tables
    requires Shape(t) && h < NUM && i1 < NUM
  {
    if k == 0 then t else if k == 1 then GiveBack(t, h) else GiveBack(GiveBack(t, h), i1)
  }

  function Unlinked(t: Tables, h: nat, i1: nat, i2: nat): Tables
    requires Shape(t) && h < NUM && i1 < NUM && i2 < NUM
  {
    GiveBack(GiveBack(GiveBack(t, h), i1), i2)
  }

  lemma ChainLinked(v: V, h: nat)
    requires Inv(v) && h in v.reqs
    ensures Shape(v.t) && h < NUM
    ensures Linked(v.t.(info := v.t.info[h := v.t.info[h].(b := 0)]), h, v.reqs[h].i1, v.reqs[h].i2)
  {
    hide Flags, Logs, RingOk, Heads;
    assert ChainOk(v.t, h, v.reqs[h]) && HeadOk(v.own, h, v.reqs[h]);
  }

  lemma Shapes(v: V)
    requires Inv(v)
    ensures Shape(v.t) && |v.avail.slots| == NUM && |v.used.slots| == NUM
  {
  }

  lemma Reformat(t: Tables, b: nat, op: Op, i0: nat, i1: nat, i2: nat)
    requires Shape(t) && i0 < NUM && i1 < NUM && i2 < NUM && i0 != i1 && i0 != i2 && i1 != i2
    ensures var u := t.(free := t.free[i0 := false][i1 := false][i2 := false]);
            Shape(u) && Format(u, b, op, i0, i1, i2) == Format(t, b, op, i0, i1, i2)
  {
    var f := t.free[i0 := false][i1 := false][i2 := false];
    assert f[i0 := false][i1 := false][i2 := false] == f;
  }

  /** The request is as before, or went from Done to Acked. */
  predicate SameButAcked(reqs: Reqs, now: Reqs, h: nat) {
    h in reqs && h in now && (now[h] == reqs[h] || (now[h] == reqs[h].(phase := Acked) && reqs[h].phase.Done?))
  }

  /** b is the buffer of a request that has gone from Done to Acked. */
  ghost predicate Released(reqs: Reqs, now: Reqs, b: nat) {
    exists h :: h in reqs && h in now && reqs[h].b == b && reqs[h].phase.Done? && now[h].phase.Acked?
  }

  lemma ReleasedMore(reqs: Reqs, now: Reqs, k: nat)
    requires now.Keys == reqs.Keys && k in now && now[k].phase.Done?
    requires forall h :: h in now ==> SameButAcked(reqs, now, h)
    ensures forall b ::
              Released(reqs, SetPhase(now, k, Acked), b) <==> Released(reqs, now, b) || b == now[k].b
  {
    var q := SetPhase(now, k, Acked);
    assert SameButAcked(reqs, now, k);
    forall b ensures Released(reqs, q, b) <==> Released(reqs, now, b) || b == now[k].b {
      if h :| h in reqs && h in now && reqs[h].b == b && reqs[h].phase.Done? && now[h].phase.Acked? {
        assert h in q && q[h].phase.Acked?;
      }
      assert q[k].phase.Acked?;
    }
  }

  lemma AckedNone(reqs: Reqs)
    ensures forall h :: h in reqs ==> SameButAcked(reqs, reqs, h)
    ensures forall b :: !Released(reqs, reqs, b)
  {
  }

  lemma AckedMore(reqs: Reqs, now: Reqs, k: nat)
    requires k in now && now[k].phase.Done? && forall h :: h in now ==> SameButAcked(reqs, now, h)
    ensures forall h :: h in now ==> SameButAcked(reqs, SetPhase(now, k, Acked), h)
  {
    forall h | h in now ensures SameButAcked(reqs, SetPhase(now, k, Acked), h) {
      assert SameButAcked(reqs, now, h);
    }
  }

  lemma ReportedDone(v: V, h: nat)
    requires Inv(v) && h in v.reqs && h in v.used.q
    ensures v.reqs[h].phase.Done?
  {
    Phased(v, h);
  }

  lemma Drains(v: V)
    requires Inv(v)
    ensures v.used.q == [] <==> v.used.from == v.used.to
  {
    Drained(v.used);
  }

  lemma SizeOf(v: V)
    requires v.used.q != []
    ensures |Pop(v.used).q| < |v.used.q|
  {
  }
}
