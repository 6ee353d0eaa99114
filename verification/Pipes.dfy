/** pipe.c: a ring of PIPESIZE bytes with 32-bit counters that are never reduced modulo
    PIPESIZE, shared by readers and writers that sleep in the middle of their loops. */
module Pipes {
  import opened Params
  import opened Arith
  import opened Blocks

  const PIPESIZE: nat := 512

  /** C's unsigned 32-bit subtraction. */
  function Minus32(a: nat, b: nat): nat
    requires a < UINT_LIMIT && b < UINT_LIMIT
  {
    (a + UINT_LIMIT - b) % UINT_LIMIT
  }

  /** Counters that wrap at 2^32 still tell how many bytes are in the pipe. */
  lemma Wrap(stored: nat, taken: nat)
    requires taken <= stored <= taken + PIPESIZE
    ensures Minus32(stored % UINT_LIMIT, taken % UINT_LIMIT) == stored - taken
    ensures stored % UINT_LIMIT == (taken % UINT_LIMIT + PIPESIZE) % UINT_LIMIT <==> stored == taken + PIPESIZE
    ensures stored % UINT_LIMIT == taken % UINT_LIMIT <==> stored == taken
  {
    var w, d := taken % UINT_LIMIT, stored - taken;
    assert taken == taken / UINT_LIMIT * UINT_LIMIT + w;
    if w + d < UINT_LIMIT {
      assert stored % UINT_LIMIT == w + d;
    } else {
      assert stored % UINT_LIMIT == w + d - UINT_LIMIT;
    }
  }

  lemma ModMod(x: nat)
    ensures (x % UINT_LIMIT) % PIPESIZE == x % PIPESIZE
  {
    var q, r := x / UINT_LIMIT, x % UINT_LIMIT;
    assert x == q * UINT_LIMIT + r;
    var a, b := r / PIPESIZE, r % PIPESIZE;
    assert x == (q * 0x80_0000 + a) * PIPESIZE + b;
    DivMod(q * 0x80_0000 + a, PIPESIZE, b);
  }

  /** x++ on a 32-bit counter, and the ring slot it selects, because PIPESIZE divides 2^32. */
  lemma Count(x: nat)
    ensures (x % UINT_LIMIT + 1) % UINT_LIMIT == (x + 1) % UINT_LIMIT
    ensures (x % UINT_LIMIT) % PIPESIZE == x % PIPESIZE
  {
    ModMod(x);
  }

  /** Two bytes in the pipe at the same time never share a slot. */
  lemma SlotsDiffer(i: nat, j: nat)
    requires i < j < i + PIPESIZE
    ensures i % PIPESIZE != j % PIPESIZE
  {
  }

  class Pipe {
    const data: array<Byte>
    var nread: nat
    var nwrite: nat
    var readopen: bool
    var writeopen: bool
    /** Every byte ever put in and taken out, and every byte handed to a reader. */
    ghost var stored: seq<Byte>
    ghost var taken: seq<Byte>
    ghost var delivered: seq<Byte>
    /** What each read so far has returned, in the order in which they held the pipe's lock. */
    ghost var results: seq<seq<Byte>>
    /** Bytes taken out whose copyout failed. */
    ghost var lost: nat
    /** How many bytes others put in while a caller of ours slept. */
    ghost var foreign: nat

    /** The ring and its counters hold exactly the bytes stored and not yet taken. */
    ghost predicate Ring()
      reads this, data
    {
      && data.Length == PIPESIZE
      && |taken| <= |stored| <= |taken| + PIPESIZE
      && nread == |taken| % UINT_LIMIT && nwrite == |stored| % UINT_LIMIT
      && taken == stored[..|taken|]
      && (forall k :: |taken| <= k < |stored| ==> data[k % PIPESIZE] == stored[k])
      && (lost == 0 ==> delivered == taken)
    }

    ghost predicate Valid()
      reads this, data
    {
      Ring() && delivered == Flat(results)
    }

    /** pipealloc: an empty pipe with both ends open. */
    constructor ()
      ensures Valid() && fresh(data) && readopen && writeopen && stored == [] && results == []
    {
      data := new Byte[PIPESIZE](i => 0);
      nread, nwrite, readopen, writeopen := 0, 0, true, true;
      stored, taken, delivered, results, lost, foreign := [], [], [], [], 0, 0;
    }

    /** FIFO: with no failed copyout, what all reads returned, one after the other, is a prefix of
        what writers stored, and the wrapped counters differ by exactly the bytes still inside. */
    lemma Fifo()
      requires Valid()
      ensures lost == 0 ==> Flat(results) <= stored
      ensures Minus32(nwrite, nread) == |stored| - |taken| <= PIPESIZE
    {
      Wrap(|stored|, |taken|);
    }

    method PutByte(ch: Byte)
      requires Ring() && |stored| < |taken| + PIPESIZE
      modifies this`nwrite, this`stored, data
      ensures Ring() && stored == old(stored) + [ch]
    {
      Count(|stored|);
      data[nwrite % PIPESIZE] := ch;
      nwrite := (nwrite + 1) % UINT_LIMIT;
      stored := stored + [ch];
      forall k | |taken| <= k < |stored| ensures data[k % PIPESIZE] == stored[k] {
        if k < |stored| - 1 {
          SlotsDiffer(k, |stored| - 1);
        }
      }
    }

    /** Takes the oldest byte; `ok` says whether its copyout succeeds. */
    method TakeByte(ok: bool) returns (ch: Byte)
      requires Ring() && |taken| < |stored|
      modifies this`nread, this`taken, this`delivered, this`lost
      ensures Ring() && ch == stored[|old(taken)|] && taken == old(taken) + [ch]
      ensures lost == old(lost) + if ok then 0 else 1
      ensures delivered == if ok then old(delivered) + [ch] else old(delivered)
    {
      Count(|taken|);
      ch := data[nread % PIPESIZE];
      nread := (nread + 1) % UINT_LIMIT;
      taken := taken + [ch];
      if ok {
        delivered := delivered + [ch];
      } else {
        lost := lost + 1;
      }
    }

    /** Everything other processes may do to the pipe while this one sleeps. */
    twostate predicate Grew()
      reads this
    {
      && old(stored) <= stored && old(taken) <= taken && old(delivered) <= delivered
      && old(lost) <= lost && old(results) <= results
    }

    method Sleep()
      requires Valid()
      modifies this, data
      ensures Valid() && Grew() && |stored| - foreign == |old(stored)| - old(foreign)
    {
      var steps: nat := *;
      while steps > 0
        invariant Valid() && Grew() && |stored| - foreign == |old(stored)| - old(foreign)
      {
        var what: int := *;
        Wrap(|stored|, |taken|);
        if what == 0 && nwrite != (nread + PIPESIZE) % UINT_LIMIT {
          var ch: Byte := *;
          PutByte(ch);
          foreign := foreign + 1;
        } else if what == 1 {
          var n: nat, fault: nat := *, *;
          var _ := CopyOut(n, fault);
        } else if what == 2 {
          readopen := false;
        } else if what == 3 {
          writeopen := false;
        }
        steps := steps - 1;
      }
    }

    /** PutByte, with the results so far. */
    method Put(ch: Byte)
      requires Valid() && |stored| < |taken| + PIPESIZE
      modifies this`nwrite, this`stored, data
      ensures Valid() && stored == old(stored) + [ch]
    {
      PutByte(ch);
    }

    /** pipewrite's test for a full ring. */
    lemma FullTest()
      requires Valid()
      ensures nwrite == (nread + PIPESIZE) % UINT_LIMIT <==> |stored| == |taken| + PIPESIZE
      ensures |stored| <= |taken| + PIPESIZE
    {
      Wrap(|stored|, |taken|);
    }

    /** pipewrite of src, whose copyin fails at index `fault` if that is in range. `naps` is
        how often the caller is woken; afterwards it may still be asleep. killed() answers yes
        from its `dies`-th call on. `at` are the positions of its bytes among all bytes stored, of which
        the others are not its own. It fails exactly without readers or when killed, and sleeps only
        on a full pipe; if it does not sleep, its bytes are all that the pipe has gained. */
    method PipeWrite(src: seq<Byte>, fault: nat, naps: nat, dies: nat) returns (r: Outcome, ghost at: seq<nat>)
      requires Valid()
      modifies this, data
      ensures Valid() && Grew()
      ensures Placed(stored, |old(stored)|, at, src)
      ensures r.Done? ==> r.n == |at| == if fault < |src| then fault else |src|
      ensures r.Failed? ==> !readopen || dies < |src| + naps
      ensures r.Done? && src != [] ==> readopen
      ensures r.Asleep? ==> readopen && |stored| == |taken| + PIPESIZE
      ensures |stored| == |old(stored)| + |at| + foreign - old(foreign)
      ensures naps == 0 ==> stored == old(stored) + src[..|at|] && taken == old(taken) && results == old(results)
                            && readopen == old(readopen) && foreign == old(foreign)
    {
      hide Valid, Placed;
      at := [];
      PlacedNone(stored, |stored|, src);
      assert stored + src[..0] == stored;
      var i := 0;
      var left, asked := naps, 0;
      while i < |src|
        invariant 0 <= left <= naps && asked == i + naps - left
        invariant 0 <= i == |at| <= |src| && i <= fault && Valid() && Grew()
        invariant Placed(stored, |old(stored)|, at, src)
        invariant |stored| == |old(stored)| + |at| + foreign - old(foreign)
        invariant 0 < i == |src| ==> readopen
        invariant naps == 0 ==> stored == old(stored) + src[..i] && taken == old(taken) && results == old(results)
                                && readopen == old(readopen) && foreign == old(foreign)
        decreases |src| - i + left
      {
        if !readopen || asked >= dies {
          return Failed, at;
        }
        asked := asked + 1;
        FullTest();
        if nwrite == (nread + PIPESIZE) % UINT_LIMIT {
          if left == 0 {
            return Asleep, at;
          }
          ghost var before := stored;
          Sleep();
          PlacedGrown(before, stored, |old(stored)|, at, src);
          left := left - 1;
        } else {
          if i == fault {
            break;
          }
          PlacedNext(stored, |old(stored)|, at, src);
          Put(src[i]);
          at := at + [|stored| - 1];
          assert naps == 0 ==> old(stored) + src[..i + 1] == old(stored) + src[..i] + [src[i]];
          i := i + 1;
        }
      }
      r := Done(i);
    }

    /** piperead's wait for data or for the last writer to close. */
    method AwaitData(naps: nat, dies: nat) returns (r: Outcome)
      requires Valid()
      modifies this, data
      ensures Valid() && Grew()
      ensures r.Done? ==> |taken| < |stored| || !writeopen
      ensures r.Failed? ==> dies <= naps && |taken| == |stored| && writeopen
      ensures r.Asleep? ==> |taken| == |stored| && writeopen
      ensures naps == 0 ==> stored == old(stored) && taken == old(taken) && results == old(results)
                            && lost == old(lost) && writeopen == old(writeopen)
    {
      var left := naps;
      while nread == nwrite && writeopen
        invariant Valid() && Grew() && 0 <= left <= naps
        invariant naps == 0 ==> stored == old(stored) && taken == old(taken) && results == old(results)
                                && lost == old(lost) && writeopen == old(writeopen)
        decreases left
      {
        Wrap(|stored|, |taken|);
        if naps - left >= dies {
          return Failed;
        }
        if left == 0 {
          return Asleep;
        }
        Sleep();
        left := left - 1;
      }
      Wrap(|stored|, |taken|);
      r := Done(0);
    }

    /** piperead's copy loop, under the pipe's lock: the next read. */
    method CopyOut(n: nat, fault: nat) returns (dst: seq<Byte>)
      requires Valid()
      modifies this`nread, this`taken, this`delivered, this`lost, this`results
      ensures results == old(results) + [dst] && (fault >= n ==> lost == old(lost))
      ensures Valid() && Grew() && |dst| <= n && |old(taken)| + |dst| <= |taken|
      ensures |old(taken)| + |dst| <= |stored| && dst == stored[|old(taken)|..|old(taken)| + |dst|]
      ensures fault >= n ==> |taken| == |old(taken)| + |dst| && (|dst| < n ==> |taken| == |stored|)
    {
      dst := CopyBytes(n, fault);
      results := results + [dst];
      assert results[..|results| - 1] == old(results);
    }

    method CopyBytes(n: nat, fault: nat) returns (dst: seq<Byte>)
      requires Ring()
      modifies this`nread, this`taken, this`delivered, this`lost
      ensures Ring() && Grew() && |dst| <= n && |old(taken)| + |dst| <= |taken|
      ensures delivered == old(delivered) + dst && (fault >= n ==> lost == old(lost))
      ensures |old(taken)| + |dst| <= |stored| && dst == stored[|old(taken)|..|old(taken)| + |dst|]
      ensures fault >= n ==> |taken| == |old(taken)| + |dst| && (|dst| < n ==> |taken| == |stored|)
    {
      dst := [];
      ghost var t := |taken|;
      while |dst| < n
        invariant |dst| <= n && |dst| <= fault && Ring() && Grew() && results == old(results)
        invariant delivered == old(delivered) + dst && lost == old(lost)
        invariant |taken| == t + |dst| && dst == stored[t..t + |dst|]
      {
        Wrap(|stored|, |taken|);
        if nread == nwrite {
          break;
        }
        var ch := TakeByte(|dst| != fault);
        if |dst| == fault {
          break;
        }
        dst := dst + [ch];
      }
    }

    /** piperead of up to n bytes, the copyout failing at index `fault`. What it returns is
        the latest entry of `results`: the next bytes nobody has taken, in order, as many as asked
        for and present. It fails only
        when killed, and sleeps only on an empty pipe that has writers. */
    method PipeRead(n: nat, fault: nat, naps: nat, dies: nat) returns (r: Outcome, dst: seq<Byte>)
      requires Valid()
      modifies this, data
      ensures Valid() && Grew()
      ensures r.Done? ==> r.n == |dst| <= n
      ensures r.Done? ==> 0 < |results| && |old(results)| < |results| && results[|results| - 1] == dst
      ensures r.Done? ==>
                exists t: nat :: Received(t, dst) && |old(taken)| <= t && (fault >= n ==> t + |dst| == |taken|)
      ensures r.Done? && fault >= n && |dst| < n ==> |taken| == |stored|
      ensures r.Done? && fault >= n && n > 0 && dst == [] ==> !writeopen
      ensures r.Failed? ==> dies <= naps && |taken| == |stored| && writeopen
      ensures r.Asleep? ==> |taken| == |stored| && writeopen
      ensures naps == 0 ==> stored == old(stored)
      ensures naps == 0 && !r.Done? ==> taken == old(taken) && results == old(results)
      ensures naps == 0 && r.Done? ==> results == old(results) + [dst] && Received(|old(taken)|, dst)
      ensures naps == 0 && r.Done? && fault >= n ==> lost == old(lost) && |taken| == |old(taken)| + |dst|
    {
      hide Valid;
      r := AwaitData(naps, dies);
      dst := [];
      if r.Done? {
        ghost var t := |taken|;
        dst := CopyOut(n, fault);
        assert Received(t, dst);
        r := Done(|dst|);
      }
    }

    /** dst is what was stored, and taken, from position t on. */
    ghost predicate Received(t: nat, dst: seq<Byte>)
      reads this
    {
      t + |dst| <= |taken| && t + |dst| <= |stored| && dst == stored[t..t + |dst|]
    }
  }

  /** One after the other. */
  ghost function Flat(results: seq<seq<Byte>>): seq<Byte> {
    if results == [] then [] else Flat(results[..|results| - 1]) + results[|results| - 1]
  }

  datatype Outcome = Done(n: int) | Failed | Asleep

  /** One writer's bytes appear among all bytes in its own order, after position `from`. */
  ghost predicate Placed(stored: seq<Byte>, from: nat, at: seq<nat>, src: seq<Byte>) {
    && |at| <= |src|
    && (forall k :: 0 <= k < |at| ==> from <= at[k] < |stored| && stored[at[k]] == src[k])
    && (forall j, k :: 0 <= j < k < |at| ==> at[j] < at[k])
  }

  lemma PlacedNone(stored: seq<Byte>, from: nat, src: seq<Byte>)
    ensures Placed(stored, from, [], src)
  {
  }

  lemma PlacedGrown(stored: seq<Byte>, more: seq<Byte>, from: nat, at: seq<nat>, src: seq<Byte>)
    requires Placed(stored, from, at, src) && stored <= more
    ensures Placed(more, from, at, src)
  {
  }

  lemma PlacedNext(stored: seq<Byte>, from: nat, at: seq<nat>, src: seq<Byte>)
    requires Placed(stored, from, at, src) && |at| < |src| && from <= |stored|
    ensures Placed(stored + [src[|at|]], from, at + [|stored|], src)
  {
  }
}
