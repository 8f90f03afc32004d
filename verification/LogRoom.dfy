/** When the log finds the buffers it needs. A logged sector keeps its buffer until it is
    installed; bget panics when no buffer is free. */
module LogRoom {
  import opened Blocks
  import opened Counting
  import opened Memide
  import opened Recovery
  import opened BufferCache

  /** Nobody holds a buffer. */
  predicate Idle(c: State)
    requires Shape(c)
  {
    forall i :: 0 <= i < NBUF ==> !c.buf[i].busy
  }

  predicate NoDirty(c: State)
    requires Shape(c)
  {
    forall i :: 0 <= i < NBUF ==> !c.buf[i].dirty
  }

  /** Each of these sectors has a dirty buffer. */
  predicate Pinned(c: State, lh: seq<nat>)
    requires Shape(c)
  {
    forall k :: 0 <= k < |lh| ==> Owner(c.buf, lh[k]) < NBUF && c.buf[Owner(c.buf, lh[k])].dirty
  }

  /** Only these sectors have dirty buffers. */
  predicate DirtyIn(c: State, lh: seq<nat>)
    requires Shape(c)
  {
    forall i :: 0 <= i < NBUF && c.buf[i].dirty ==> c.buf[i].sector in lh
  }

  /** There are buffers to install these sectors. */
  predicate Loose(c: State, lh: seq<nat>)
    requires Shape(c)
  {
    Idle(c) && DirtyIn(c, lh) && (NoDirty(c) || (Pinned(c, lh) && |lh| < NBUF))
  }

  /** The sectors logged take up every buffer. */
  predicate Full(c: State, lh: seq<nat>)
    requires Shape(c)
  {
    Idle(c) && Pinned(c, lh) && |lh| >= NBUF
  }

  predicate BusySame(c: State, c': State)
    requires Shape(c) && Shape(c')
  {
    forall i :: 0 <= i < NBUF ==> c'.buf[i].busy == c.buf[i].busy
  }

  // ----- Counting buffers -----

  function Elems(xs: seq<nat>): set<nat> {
    set x | x in xs
  }

  lemma {:induction false} ElemsSize(xs: seq<nat>)
    ensures |Elems(xs)| <= |xs| && (Recovery.Distinct(xs) ==> |Elems(xs)| == |xs|)
  {
    if xs != [] {
      var m := |xs| - 1;
      ElemsSize(xs[..m]);
      assert Elems(xs) == Elems(xs[..m]) + {xs[m]};
      if Recovery.Distinct(xs) {
        assert xs[m] !in xs[..m];
      }
    }
  }

  /** n different numbers below n are all of them. */
  lemma Onto(xs: seq<nat>, n: nat, i: nat)
    requires Recovery.Distinct(xs) && |xs| >= n && i < n && forall x :: x in xs ==> x < n
    ensures i in xs
  {
    ElemsSize(xs);
    if i !in xs {
      RangeSize(0, n);
      assert Elems(xs) <= Range(0, n) - {i};
      SubsetSize(Elems(xs), Range(0, n) - {i});
      assert false;
    }
  }

  function Cached(buf: seq<Buf>): (xs: seq<nat>)
    ensures |xs| == |buf| && forall i :: 0 <= i < |buf| ==> xs[i] == buf[i].sector
  {
    seq(|buf|, i requires 0 <= i < |buf| => buf[i].sector)
  }

  /** Buffers that hold different sectors of ks are no more than ks. */
  lemma Pigeon(c: State, ks: seq<nat>)
    requires Coherent(c) && forall i :: 0 <= i < NBUF ==> c.buf[i].dev == ROOTDEV && c.buf[i].sector in ks
    ensures |ks| >= NBUF
  {
    hide Coherent;
    ElemsSize(ks);
    Pigeons(c, Elems(ks));
  }

  lemma Pigeons(c: State, ks: set<nat>)
    requires Coherent(c) && forall i :: 0 <= i < NBUF ==> c.buf[i].dev == ROOTDEV && c.buf[i].sector in ks
    ensures |ks| >= NBUF
  {
    var xs := Cached(c.buf);
    forall i, j | 0 <= i < j < |xs| ensures xs[i] != xs[j] {
      OwnerIs(c, i);
      OwnerIs(c, j);
    }
    ElemsSize(xs);
    SubsetSize(Elems(xs), ks);
  }

  function Owners(buf: seq<Buf>, ks: seq<nat>): (xs: seq<nat>)
    ensures |xs| == |ks| && forall k :: 0 <= k < |ks| ==> xs[k] == Owner(buf, ks[k])
  {
    seq(|ks|, k requires 0 <= k < |ks| => Owner(buf, ks[k]))
  }

  /** As many sectors as there are buffers, all cached, take up every buffer. */
  lemma Taken(c: State, ks: seq<nat>, i: nat)
    requires Shape(c) && Recovery.Distinct(ks) && |ks| >= NBUF && i < NBUF
    requires forall k :: 0 <= k < |ks| ==> Owner(c.buf, ks[k]) < NBUF
    ensures c.buf[i].dev == ROOTDEV && c.buf[i].sector in ks && Owner(c.buf, c.buf[i].sector) == i
  {
    hide Owner;
    var xs := Owners(c.buf, ks);
    Onto(xs, NBUF, i);
    var k :| 0 <= k < |xs| && xs[k] == i;
    assert c.buf[i].Holds(ROOTDEV, ks[k]);
  }

  // ----- bread where nobody holds a buffer -----

  lemma IdleGot(c: State, s: nat)
    requires Coherent(c) && Idle(c) && s < |c.disk|
    ensures BRead(c, ROOTDEV, s).1.Got? <==> Owner(c.buf, s) < NBUF || exists i :: 0 <= i < NBUF && !c.buf[i].dirty
  {
    BReadContent(c, s);
    GetOutcome(c, s);
    hide BRead, BGet, Coherent, Owner;
  }

  lemma SomeClean(c: State, lh: seq<nat>)
    requires Coherent(c) && DirtyIn(c, lh) && |lh| < NBUF
    ensures exists i :: 0 <= i < NBUF && !c.buf[i].dirty
  {
    if forall i :: 0 <= i < NBUF ==> c.buf[i].dirty {
      forall i | 0 <= i < NBUF ensures c.buf[i].dev == ROOTDEV && c.buf[i].sector in lh {
        assert BufOk(c.buf[i], c.disk);
      }
      Pigeon(c, lh);
    }
  }

  lemma AllDirty(c: State, lh: seq<nat>)
    requires Shape(c) && Pinned(c, lh) && Recovery.Distinct(lh) && |lh| >= NBUF
    ensures forall i :: 0 <= i < NBUF ==> c.buf[i].dirty
  {
    hide Owner;
    forall i | 0 <= i < NBUF ensures c.buf[i].dirty {
      Taken(c, lh, i);
    }
  }

  /** A sector that is none of the logged ones can be read exactly if not every buffer is
      taken up by those. */
  lemma OtherGot(c: State, lh: seq<nat>, s: nat)
    requires Coherent(c) && Idle(c) && DirtyIn(c, lh) && Pinned(c, lh) && Recovery.Distinct(lh) && s < |c.disk| && s !in lh
    ensures BRead(c, ROOTDEV, s).1.Got? <==> |lh| < NBUF
  {
    hide BRead, Coherent;
    ShapeIs(c);
    IdleGot(c, s);
    if |lh| < NBUF {
      SomeClean(c, lh);
    } else {
      AllDirty(c, lh);
    }
  }

  lemma ShapeIs(c: State)
    requires Coherent(c)
    ensures Shape(c)
  {
  }

  /** A sector to update, while the log has room. */
  lemma UpdateGot(c: State, lh: seq<nat>, s: nat)
    requires Coherent(c) && Idle(c) && DirtyIn(c, lh) && |lh| < NBUF && s < |c.disk|
    ensures BRead(c, ROOTDEV, s).1.Got?
  {
    hide BRead, Coherent;
    IdleGot(c, s);
    SomeClean(c, lh);
  }

  /** Nobody holds a buffer but b. */
  predicate IdleBut(c: State, b: nat)
    requires Shape(c)
  {
    forall i :: 0 <= i < NBUF && i != b ==> !c.buf[i].busy
  }

  lemma IdleButGot(c: State, b: nat, s: nat)
    requires Coherent(c) && b < NBUF && IdleBut(c, b) && c.buf[b].busy && !c.buf[b].Holds(ROOTDEV, s) && s < |c.disk|
    ensures BRead(c, ROOTDEV, s).1.Got? <==> Owner(c.buf, s) < NBUF || exists i :: 0 <= i < NBUF && i != b && !c.buf[i].dirty
  {
    BReadContent(c, s);
    GetOutcome(c, s);
    hide BRead, BGet, Coherent, Owner;
  }

  /** The log's block for a held sector s: there is a buffer exactly if the sectors logged
      and s do not take up all of them. */
  lemma LogBlockGot(c: State, lh: seq<nat>, b: nat, s: nat, l: nat)
    requires Coherent(c) && b < NBUF && IdleBut(c, b) && Held(c, b, s) && DirtyIn(c, lh) && Pinned(c, lh) && Recovery.Distinct(lh)
    requires l < |c.disk| && l !in lh && l != s && Recovery.Distinct(Absorb(lh, s))
    ensures BRead(c, ROOTDEV, l).1.Got? <==> |Absorb(lh, s)| < NBUF
  {
    hide BRead, Coherent;
    ShapeIs(c);
    IdleButGot(c, b, l);
    var ks := Absorb(lh, s);
    if |ks| < NBUF {
      if forall i :: 0 <= i < NBUF && i != b ==> c.buf[i].dirty {
        OthersDirty(c, lh, b, s);
      }
    } else {
      NoneLeft(c, lh, b, s);
    }
  }

  lemma OthersDirty(c: State, lh: seq<nat>, b: nat, s: nat)
    requires Coherent(c) && b < NBUF && Held(c, b, s) && DirtyIn(c, lh) && forall i :: 0 <= i < NBUF && i != b ==> c.buf[i].dirty
    ensures |Absorb(lh, s)| >= NBUF
  {
    Pigeon(c, Absorb(lh, s));
  }

  lemma NoneLeft(c: State, lh: seq<nat>, b: nat, s: nat)
    requires Coherent(c) && b < NBUF && Held(c, b, s) && Pinned(c, lh) && Recovery.Distinct(Absorb(lh, s)) && |Absorb(lh, s)| >= NBUF
    ensures forall i :: 0 <= i < NBUF && i != b ==> c.buf[i].dirty
    ensures forall i :: 0 <= i < NBUF ==> c.buf[i].dev == ROOTDEV && c.buf[i].sector in Absorb(lh, s)
  {
    ShapeIs(c);
    OwnerIs(c, b);
    hide Owner, Coherent;
    var ks := Absorb(lh, s);
    forall k | 0 <= k < |ks| ensures Owner(c.buf, ks[k]) < NBUF {
      assert ks[k] == s || ks[k] == lh[k];
    }
    forall i | 0 <= i < NBUF
      ensures c.buf[i].dev == ROOTDEV && c.buf[i].sector in ks && (i != b ==> c.buf[i].dirty)
    {
      Taken(c, ks, i);
    }
  }

  /** install_trans finds its two buffers. */
  lemma CopyGot(c: State, lh: seq<nat>, l: nat, h: nat)
    requires Coherent(c) && Loose(c, lh) && lh != [] && h == lh[0] && l < |c.disk| && h < |c.disk| && l != h
    ensures BRead(c, ROOTDEV, l).1.Got? && BRead(BRead(c, ROOTDEV, l).0, ROOTDEV, h).1.Got?
  {
    hide BRead, Coherent;
    ShapeIs(c);
    IdleGot(c, l);
    if NoDirty(c) {
      assert !c.buf[0].dirty;
    } else {
      SomeClean(c, lh);
    }
    BReadContent(c, l);
    var (c1, r) := BRead(c, ROOTDEV, l);
    assert IdleBut(c1, r.b);
    IdleButGot(c1, r.b, h);
    if NoDirty(c) {
      var i := if r.b == 0 then 1 else 0;
      assert !c1.buf[i].dirty;
    } else {
      var o := Owner(c.buf, h);
      assert c1.buf[o] == c.buf[o];
    }
  }
}
