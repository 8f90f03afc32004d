/** bio.c and memide.c as they run: the buffers of bcache.buf linked through next and
    prev, each operation proved to do what module BufferCache says of it. Pointers into
    bcache.buf are indices below NBUF, and HEAD stands for &bcache.head. */
module Bio {
  import opened Blocks
  import opened Memide
  import opened Recovery
  import opened BufferCache

  const HEAD: nat := NBUF

  /** Position i of the circular list: head, the buffers of o, head again. */
  function At(o: seq<nat>, i: nat): nat
    requires i <= |o| + 1
  {
    if 1 <= i <= |o| then o[i - 1] else HEAD
  }

  /** next and prev are the circular list head, o[0], o[1], ... */
  predicate Linked(next: seq<nat>, prev: seq<nat>, o: seq<nat>) {
    && |next| == NBUF + 1 && |prev| == NBUF + 1
    && (forall i :: 0 <= i < |o| ==> o[i] < NBUF)
    && (forall i, j :: 0 <= i < j < |o| ==> o[i] != o[j])
    && (forall i :: 0 <= i <= |o| ==> LinkedAt(next, prev, o, i))
  }

  predicate LinkedAt(next: seq<nat>, prev: seq<nat>, o: seq<nat>, i: nat)
    requires |next| == NBUF + 1 && |prev| == NBUF + 1 && i <= |o|
  {
    && At(o, i) <= NBUF && At(o, i + 1) <= NBUF
    && next[At(o, i)] == At(o, i + 1) && prev[At(o, i + 1)] == At(o, i)
  }

  /** The four stores that put b behind the head. */
  function PushNext(next: seq<nat>, b: nat): seq<nat>
    requires |next| == NBUF + 1 && b < NBUF
  {
    next[b := next[HEAD]][HEAD := b]
  }

  function PushPrev(next: seq<nat>, prev: seq<nat>, b: nat): seq<nat>
    requires |next| == |prev| == NBUF + 1 && b < NBUF && next[HEAD] <= NBUF
  {
    prev[b := HEAD][next[HEAD] := b]
  }

  lemma PushLinked(next: seq<nat>, prev: seq<nat>, o: seq<nat>, b: nat)
    requires Linked(next, prev, o) && b < NBUF && b !in o
    ensures next[HEAD] <= NBUF && Linked(PushNext(next, b), PushPrev(next, prev, b), [b] + o)
  {
    assert LinkedAt(next, prev, o, 0);
    var next', prev', o' := PushNext(next, b), PushPrev(next, prev, b), [b] + o;
    forall i | 0 <= i <= |o'| ensures LinkedAt(next', prev', o', i) {
      if i >= 2 {
        assert LinkedAt(next, prev, o, i - 1);
        assert At(o', i) == At(o, i - 1) && At(o', i + 1) == At(o, i);
      }
    }
  }

  /** The two stores that take the buffer at position k out of the list. */
  lemma UnlinkLinked(next: seq<nat>, prev: seq<nat>, o: seq<nat>, k: nat)
    requires Linked(next, prev, o) && k < |o|
    ensures var b := o[k];
            && next[b] <= NBUF && prev[b] <= NBUF
            && Linked(next[prev[b] := next[b]], prev[next[b] := prev[b]], o[..k] + o[k + 1..])
  {
    assert LinkedAt(next, prev, o, k) && LinkedAt(next, prev, o, k + 1);
    var b := o[k];
    var next', prev', o' := next[prev[b] := next[b]], prev[next[b] := prev[b]], o[..k] + o[k + 1..];
    assert prev[b] == At(o, k) && next[b] == At(o, k + 2);
    forall i | 0 <= i <= |o'| ensures LinkedAt(next', prev', o', i) {
      if i < k {
        assert LinkedAt(next, prev, o, i);
        assert At(o', i) == At(o, i) && At(o', i + 1) == At(o, i + 1);
      } else if i == k {
        assert At(o', i) == At(o, k) && At(o', i + 1) == At(o, k + 2);
      } else {
        assert LinkedAt(next, prev, o, i + 1);
        assert At(o', i) == At(o, i + 1) && At(o', i + 1) == At(o, i + 2);
      }
    }
  }

  class Cache {
    var buf: seq<Buf>
    var next: seq<nat>
    var prev: seq<nat>
    var disk: Disk

    /** The list in order, and every sector write made so far. */
    ghost var order: seq<nat>
    ghost var trace: seq<Write>

    ghost function S(): State
      reads this
    {
      State(buf, order, disk, trace)
    }

    ghost predicate Valid()
      reads this
    {
      Shape(S()) && Linked(next, prev, order)
    }

    /** binit, over the disk image a boot finds. */
    constructor (image: Disk)
      ensures Valid() && Coherent(S()) && disk == image && trace == []
      ensures forall i :: 0 <= i < NBUF ==> !buf[i].busy && !buf[i].dirty && !buf[i].valid
    {
      disk, trace, order := image, [], [];
      buf := seq(NBUF, i => Buf(false, false, false, 0, 0, Zero()));
      next := seq(NBUF + 1, i => HEAD);
      prev := seq(NBUF + 1, i => HEAD);
      new;
      var b := 0;
      while b < NBUF
        invariant 0 <= b <= NBUF && |buf| == NBUF && disk == image && trace == []
        invariant |order| == b && Linked(next, prev, order)
        invariant forall i :: 0 <= i < b ==> order[i] == b - 1 - i
        invariant forall i :: 0 <= i < b ==> buf[i].dev == NODEV
        invariant forall i :: 0 <= i < NBUF ==> !buf[i].busy && !buf[i].dirty && !buf[i].valid
      {
        PushFront(b);
        buf := buf[b := buf[b].(dev := NODEV)];
        b := b + 1;
      }
      forall i | 0 <= i < NBUF ensures i in order {
        assert order[NBUF - 1 - i] == i;
      }
    }

    method PushFront(b: nat)
      requires Linked(next, prev, order) && b < NBUF && b !in order
      modifies this`next, this`prev, this`order
      ensures Linked(next, prev, order) && order == [b] + old(order)
    {
      PushLinked(next, prev, order, b);
      next := next[b := next[HEAD]];
      prev := prev[b := HEAD];
      prev := prev[next[HEAD] := b];
      next := next[HEAD := b];
      order := [b] + order;
    }

    /** bget's first walk, from the most recently used buffer on; HEAD if not cached. */
    method FindCached(dev: nat, sector: nat) returns (b: nat)
      requires Valid()
      ensures b == At(order, Find(S(), dev, sector, 0) + 1)
    {
      ghost var i := 0;
      assert LinkedAt(next, prev, order, 0);
      b := next[HEAD];
      while b != HEAD
        invariant 0 <= i <= NBUF && b == At(order, i + 1)
        invariant Find(S(), dev, sector, 0) == Find(S(), dev, sector, i)
        decreases NBUF - i
      {
        if buf[b].dev == dev && buf[b].sector == sector {
          return;
        }
        assert LinkedAt(next, prev, order, i + 1);
        b, i := next[b], i + 1;
      }
    }

    /** bget's second walk, from the least recently used buffer back. */
    method FindVictim() returns (b: nat)
      requires Valid()
      ensures b == At(order, Victim(S(), NBUF) + 1)
    {
      ghost var i := NBUF;
      assert LinkedAt(next, prev, order, NBUF);
      b := prev[HEAD];
      while b != HEAD
        invariant 0 <= i <= NBUF && b == At(order, i)
        invariant Victim(S(), NBUF) == Victim(S(), i)
        decreases i
      {
        if !buf[b].busy && !buf[b].dirty {
          return;
        }
        assert LinkedAt(next, prev, order, i - 1);
        b, i := prev[b], i - 1;
      }
    }

    /** bget. The sleep on a busy copy is left to the caller. */
    method Get(dev: nat, sector: nat) returns (g: Got)
      requires Valid()
      modifies this`buf
      ensures Valid() && (S(), g) == BGet(old(S()), dev, sector)
    {
      hide Find, Victim, Linked;
      var b := FindCached(dev, sector);
      if b != HEAD {
        if buf[b].busy {
          return Sleeps;
        }
        buf := buf[b := buf[b].(busy := true)];
        return Got(b);
      }
      b := FindVictim();
      if b == HEAD {
        return Panics;
      }
      buf := buf[b := buf[b].(dev := dev, sector := sector, busy := true, valid := false, dirty := false)];
      return Got(b);
    }

    /** iderw of memide.c; false is one of its panics. */
    method Rw(b: nat) returns (ok: bool)
      requires Valid() && b < NBUF
      modifies this`buf, this`disk, this`trace
      ensures Valid() && ok == IdeReady(old(S()), b)
      ensures S() == if ok then IdeRw(old(S()), b) else old(S())
    {
      if !buf[b].busy || (buf[b].valid && !buf[b].dirty) || buf[b].dev != ROOTDEV || buf[b].sector >= |disk| {
        return false;
      }
      if buf[b].dirty {
        buf := buf[b := buf[b].(dirty := false)];
        disk := disk[buf[b].sector := buf[b].data];
        trace := trace + [Write(buf[b].sector, buf[b].data)];
      } else {
        buf := buf[b := buf[b].(data := disk[buf[b].sector])];
      }
      buf := buf[b := buf[b].(valid := true)];
      return true;
    }

    method Read(dev: nat, sector: nat) returns (g: Got)
      requires Valid()
      modifies this`buf, this`disk, this`trace
      ensures Valid() && (S(), g) == BRead(old(S()), dev, sector)
    {
      g := Get(dev, sector);
      if g.Got? && !buf[g.b].valid {
        var ok := Rw(g.b);
        if !ok {
          g := Panics;
        }
      }
    }

    /** The client's stores into b->data. */
    method Fill(b: nat, data: Block)
      requires Valid() && b < NBUF
      modifies this`buf
      ensures Valid() && S() == Store(old(S()), b, data)
    {
      buf := buf[b := buf[b].(data := data)];
    }

    method MarkDirty(b: nat)
      requires Valid() && b < NBUF
      modifies this`buf
      ensures Valid() && S() == old(S()).Set(b, old(buf[b]).(dirty := true))
    {
      buf := buf[b := buf[b].(dirty := true)];
    }

    /** bwrite of a buffer that is on the disk; false is its panic. */
    method WriteBack(b: nat) returns (ok: bool)
      requires Valid() && b < NBUF && buf[b].dev == ROOTDEV && buf[b].sector < |disk|
      modifies this`buf, this`disk, this`trace
      ensures Valid() && ok == old(buf[b].busy)
      ensures S() == if ok then BWrite(old(S()), b) else old(S())
    {
      if !buf[b].busy {
        return false;
      }
      buf := buf[b := buf[b].(dirty := true)];
      ok := Rw(b);
    }

    /** brelse; false is its panic. */
    method Release(b: nat) returns (ok: bool)
      requires Valid() && b < NBUF
      modifies this`buf, this`next, this`prev, this`order
      ensures Valid() && ok == old(buf[b].busy)
      ensures S() == if ok then BRelse(old(S()), b) else old(S())
    {
      if !buf[b].busy {
        return false;
      }
      hide Linked;
      assert b in order;
      Unlink(b);
      PushFront(b);
      assert order == ToFront(old(order), b);
      buf := buf[b := buf[b].(busy := false)];
      return true;
    }

    method Unlink(b: nat)
      requires Linked(next, prev, order) && b in order
      modifies this`next, this`prev, this`order
      ensures var k := Slot(old(order), b);
              Linked(next, prev, order) && order == old(order)[..k] + old(order)[k + 1..] && b !in order
    {
      ghost var k := Slot(order, b);
      UnlinkLinked(next, prev, order, k);
      prev := prev[next[b] := prev[b]];
      next := next[prev[b] := next[b]];
      order := order[..k] + order[k + 1..];
    }
  }
}
