/** log.c as it runs, through the buffer cache. Every operation is tied to the sector
    writes that module Recovery reasons about, so that its crash theorem speaks about
    this code; and the write-ahead rule is the invariant Steady. A panic, or a sleep
    that nothing here would end, is a stop: the operation returns false. */
module LogRun {
  import opened Blocks
  import opened Memide
  import opened Options
  import opened Recovery
  import opened BufferCache
  import opened LogRoom
  import opened Bio

  // ----- What reached the disk -----

  /** Between a and c exactly the sector writes ws were made. */
  ghost predicate Wrote(a: State, c: State, ws: seq<Write>) {
    && InRange(ws, |a.disk|)
    && c.trace == a.trace + ws && c.disk == Apply(a.disk, ws)
  }

  /** Between a and c some first few of the writes ws were made. */
  ghost predicate Stopped(a: State, c: State, ws: seq<Write>) {
    exists k :: 0 <= k <= |ws| && Wrote(a, c, ws[..k])
  }

  lemma WroteThen(a: State, b: State, c: State, v: seq<Write>, w: seq<Write>)
    requires Wrote(a, b, v) && Wrote(b, c, w)
    ensures Wrote(a, c, v + w)
  {
    ApplyConcat(a.disk, v, w);
    assert a.trace + v + w == a.trace + (v + w);
  }

  lemma WroteStopped(a: State, b: State, c: State, v: seq<Write>, w: seq<Write>)
    requires Wrote(a, b, v) && Stopped(b, c, w)
    ensures Stopped(a, c, v + w)
  {
    var k :| 0 <= k <= |w| && Wrote(b, c, w[..k]);
    WroteThen(a, b, c, v, w[..k]);
    assert (v + w)[..|v| + k] == v + w[..k];
  }

  lemma StoppedLater(a: State, c: State, v: seq<Write>, w: seq<Write>)
    requires Stopped(a, c, v)
    ensures Stopped(a, c, v + w)
  {
    var k :| 0 <= k <= |v| && Wrote(a, c, v[..k]);
    assert (v + w)[..k] == v[..k];
  }

  lemma WroteOne(a: State, c: State, w: Write)
    requires w.sector < |a.disk| && c.trace == a.trace + [w] && c.disk == a.disk[w.sector := w.data]
    ensures Wrote(a, c, [w])
  {
    ApplyOne(a.disk, w);
  }

  lemma WroteNothing(a: State, c: State, ws: seq<Write>)
    requires c.trace == a.trace && c.disk == a.disk
    ensures Wrote(a, c, []) && Stopped(a, c, ws)
  {
    assert ws[..0] == [];
  }

  // ----- What reading, changing, writing and releasing one sector leaves alone -----

  /** Only the copy of sector s may have changed: other buffers in use or waiting to be
      written are as they were, and none has become so. */
  predicate Kept(c: State, c': State, s: nat) {
    && Shape(c) && Shape(c')
    && forall i :: 0 <= i < NBUF ==> BufKept(c.buf[i], c'.buf[i], s)
  }

  predicate BufKept(x: Buf, x': Buf, s: nat) {
    && (x.busy || (x.dirty && !x.Holds(ROOTDEV, s)) ==> x' == x)
    && (x'.busy || x'.dirty ==> x' == x && !x'.Holds(ROOTDEV, s))
  }

  lemma OnlyCopy(c: State, b: nat, s: nat)
    requires Coherent(c) && b < NBUF && c.buf[b].Holds(ROOTDEV, s)
    ensures forall i :: 0 <= i < NBUF && i != b ==> !c.buf[i].Holds(ROOTDEV, s)
  {
  }

  /** A change of the data of a held buffer, bwrite, brelse. */
  lemma PutBack(c1: State, c2: State, c3: State, c4: State, b: nat, s: nat, data: Block)
    requires Coherent(c1) && b < NBUF && Held(c1, b, s) && c2 == Store(c1, b, data)
    requires s < |c2.disk| && c3 == BWrite(c2, b) && c3.buf[b].busy && c4 == BRelse(c3, b)
    ensures Coherent(c4) && c4.disk == c1.disk[s := data] && c4.trace == c1.trace + [Write(s, data)]
    ensures c4.buf == c1.buf[b := c4.buf[b]] && !c4.buf[b].busy && !c4.buf[b].dirty
    ensures forall t :: 0 <= t < |c1.disk| ==> Content(c4, t) == if t == s then data else Content(c1, t)
  {
    assert Shape(c1);
    hide Content, Coherent, BWrite;
    StoreContent(c1, b, s, data);
    BWriteContent(c2, b, s);
    BRelseContent(c3, b, s);
    assert c4.buf == c3.buf[b := c4.buf[b]] && c3.buf == c2.buf[b := c3.buf[b]] && c2.buf == c1.buf[b := c2.buf[b]];
    assert c4.buf == c1.buf[b := c4.buf[b]];
    assert |c4.disk| == |c1.disk|;
  }

  lemma OneKept(c: State, c1: State, c': State, b: nat, s: nat)
    requires Coherent(c) && s < |c.disk| && (c1, Got(b)) == BRead(c, ROOTDEV, s) && Shape(c')
    requires c'.buf == c1.buf[b := c'.buf[b]] && !c'.buf[b].busy && !c'.buf[b].dirty
    ensures Kept(c, c', s)
  {
    BReadContent(c, s);
    OnlyCopy(c1, b, s);
    hide BRead, Coherent;
    forall i | 0 <= i < NBUF ensures BufKept(c.buf[i], c'.buf[i], s) {
    }
  }

  lemma HeldAfterRead(c: State, c1: State, b: nat, s: nat)
    requires Coherent(c) && s < |c.disk| && (c1, Got(b)) == BRead(c, ROOTDEV, s)
    ensures b < NBUF && Held(c1, b, s) && c1.buf[b].data == Content(c, s)
  {
    BReadContent(c, s);
  }

  lemma CleanContent(c: State, s: nat)
    requires Coherent(c) && s < |c.disk| && BRead(c, ROOTDEV, s).1.Got?
    requires forall i :: 0 <= i < NBUF && c.buf[i].Holds(ROOTDEV, s) ==> !c.buf[i].dirty
    ensures Content(c, s) == c.disk[s]
  {
    BReadContent(c, s);
    GetOutcome(c, s);
  }

  predicate ReadsBoth(c: State, c1: State, c2: State, lb: nat, db: nat, l: nat, h: nat) {
    && Coherent(c) && h < l < |c.disk|
    && (forall i :: 0 <= i < NBUF && c.buf[i].Holds(ROOTDEV, l) ==> !c.buf[i].dirty)
    && Shape(c1) && (c1, Got(lb)) == BRead(c, ROOTDEV, l) && (c2, Got(db)) == BRead(c1, ROOTDEV, h)
  }

  /** bread of a clean log block and then of a home sector. */
  lemma ReadBoth(c: State, c1: State, c2: State, lb: nat, db: nat, l: nat, h: nat)
    requires ReadsBoth(c, c1, c2, lb, db, l, h)
    ensures Coherent(c2) && c2.disk == c.disk && c2.trace == c.trace
    ensures lb < NBUF && db < NBUF && lb != db && Held(c2, lb, l) && Held(c2, db, h)
    ensures !c2.buf[lb].dirty && c2.buf[lb].data == c.disk[l]
    ensures GotFrom(c, c1, lb, l) && GotFrom(c1, c2, db, h)
  {
    BReadContent(c, l);
    CleanContent(c, l);
    BReadContent(c1, h);
    hide BRead, Content, Coherent;
  }

  lemma BothKept(c: State, c1: State, c2: State, c': State, lb: nat, db: nat, l: nat, h: nat)
    requires ReadsBoth(c, c1, c2, lb, db, l, h) && Shape(c')
    requires lb < NBUF && db < NBUF && c'.buf == c2.buf[lb := c'.buf[lb]][db := c'.buf[db]]
    requires !c'.buf[lb].busy && !c'.buf[db].busy && !c'.buf[lb].dirty && !c'.buf[db].dirty
    ensures Kept(c, c', h)
  {
    ReadBoth(c, c1, c2, lb, db, l, h);
    OnlyCopy(c2, db, h);
    hide BRead, Coherent;
    forall i | 0 <= i < NBUF ensures BufKept(c.buf[i], c'.buf[i], h) {
      if i != lb && i != db {
        assert c'.buf[i] == c2.buf[i] == c1.buf[i] == c.buf[i];
      }
    }
  }

  predicate CopiesOver(c2: State, c3: State, c4: State, c5: State, c6: State, lb: nat, db: nat, h: nat) {
    && Shape(c2) && lb < NBUF && db < NBUF && c3 == Store(c2, db, c2.buf[lb].data)
    && c3.buf[db].busy && c3.buf[db].Holds(ROOTDEV, h) && h < |c3.disk| && c4 == BWrite(c3, db)
    && c4.buf[lb].busy && c5 == BRelse(c4, lb)
    && c5.buf[db].busy && c6 == BRelse(c5, db)
  }

  lemma CopyOver(c2: State, c3: State, c4: State, c5: State, c6: State, lb: nat, db: nat, l: nat, h: nat)
    requires CopiesOver(c2, c3, c4, c5, c6, lb, db, h) && Coherent(c2) && l < |c2.disk| && l != h && lb != db
    requires Held(c2, lb, l) && Held(c2, db, h) && !c2.buf[lb].dirty && c2.buf[lb].data == c2.disk[l]
    ensures Coherent(c6)
    ensures c6.disk == c2.disk[h := c2.disk[l]] && c6.trace == c2.trace + [Write(h, c2.disk[l])]
    ensures c6.buf == c2.buf[lb := c6.buf[lb]][db := c6.buf[db]]
    ensures !c6.buf[lb].busy && !c6.buf[db].busy && !c6.buf[lb].dirty && !c6.buf[db].dirty
  {
    StoreContent(c2, db, h, c2.buf[lb].data);
    BWriteContent(c3, db, h);
    hide Content, Coherent, BWrite;
    BRelseContent(c4, lb, l);
    BRelseContent(c5, db, h);
  }

  // ----- The invariant of a transaction -----

  /** In a transaction that has logged the sectors lh: nothing on disk says so yet, only
      logged sectors have dirty buffers and all of them do, and apart from a buffer a
      process is working on, a reader of any home sector gets what was last logged. */
  predicate Steady(c: State, g: Geometry, lh: seq<nat>) {
    && Coherent(c) && Clean(g, c.disk) && LogList(g, lh)
    && (forall i :: 0 <= i < NBUF && c.buf[i].dirty ==> c.buf[i].sector in lh)
    && (forall s :: 0 <= s < g.start ==> SteadyAt(c, g, lh, s))
  }

  predicate SteadyAt(c: State, g: Geometry, lh: seq<nat>, s: nat)
    requires Shape(c) && g.Fits(c.disk) && LogList(g, lh) && s < g.start
  {
    var b := Owner(c.buf, s);
    && (s in lh ==> b < NBUF && c.buf[b].dirty)
    && ((b < NBUF && c.buf[b].busy) || Content(c, s) == Effective(g, c.disk, lh, s))
  }

  lemma SteadyBasics(c: State, g: Geometry, lh: seq<nat>)
    requires Steady(c, g, lh)
    ensures Coherent(c) && g.Fits(c.disk) && Clean(g, c.disk) && LogList(g, lh)
  {
  }

  lemma ShapeOf(c: State)
    requires Coherent(c)
    ensures Shape(c)
  {
  }

  /** Without logged sectors and dirty buffers the invariant holds by itself. */
  lemma SteadyEmpty(c: State, g: Geometry)
    requires Coherent(c) && Clean(g, c.disk) && forall i :: 0 <= i < NBUF ==> !c.buf[i].dirty
    ensures Steady(c, g, [])
  {
  }

  /** Where the busy and dirty copies of sector t are is not affected by work on l. */
  lemma OwnerKept(c: State, c': State, l: nat, t: nat)
    requires Coherent(c) && Coherent(c') && Kept(c, c', l) && t != l
    ensures var o := Owner(c.buf, t);
            o < NBUF && (c.buf[o].busy || c.buf[o].dirty) ==> Owner(c'.buf, t) == o && c'.buf[o] == c.buf[o]
    ensures var o := Owner(c'.buf, t);
            o < NBUF && c'.buf[o].busy ==> Owner(c.buf, t) == o && c'.buf[o] == c.buf[o]
  {
    var o, o' := Owner(c.buf, t), Owner(c'.buf, t);
    if o < NBUF && (c.buf[o].busy || c.buf[o].dirty) {
      assert BufKept(c.buf[o], c'.buf[o], l);
      OwnerIs(c', o);
    }
    if o' < NBUF && c'.buf[o'].busy {
      assert BufKept(c.buf[o'], c'.buf[o'], l);
      OwnerIs(c, o');
    }
  }

  lemma MarkedOwner(c: State, b: nat, s: nat, t: nat)
    requires Coherent(c) && b < NBUF && Held(c, b, s) && Coherent(c.Set(b, c.buf[b].(dirty := true)))
    ensures Owner(c.Set(b, c.buf[b].(dirty := true)).buf, t) == Owner(c.buf, t)
    ensures Owner(c.buf, s) == b
  {
    OwnerIs(c, b);
    var c' := c.Set(b, c.buf[b].(dirty := true));
    var o := Owner(c.buf, t);
    if o < NBUF {
      OwnerIs(c', o);
    }
  }

  /** SteadyAt for a sector other than the logged one, from what did not change for it. */
  lemma StaysSteady(c: State, c': State, g: Geometry, lh: seq<nat>, lh': seq<nat>, t: nat)
    requires Shape(c) && Shape(c') && g.Fits(c.disk) && g.Fits(c'.disk) && LogList(g, lh) && LogList(g, lh')
    requires t < g.start && SteadyAt(c, g, lh, t) && (t in lh' <==> t in lh)
    requires Content(c', t) == Content(c, t) && Effective(g, c'.disk, lh', t) == Effective(g, c.disk, lh, t)
    requires var o := Owner(c.buf, t);
             o < NBUF && (c.buf[o].busy || c.buf[o].dirty) ==> Owner(c'.buf, t) == o && c'.buf[o] == c.buf[o]
    ensures SteadyAt(c', g, lh', t)
  {
    hide Content, Effective, Owner;
  }

  /** A sector t other than the logged s: neither log_write's work on the log block l
      nor marking the buffer b of s dirty affects it. */
  lemma LoggedOther(c: State, c': State, c'': State, g: Geometry, lh: seq<nat>, b: nat, s: nat, l: nat, t: nat)
    requires Coherent(c) && g.Fits(c.disk) && LogList(g, lh) && |lh| < g.Limit() && LogList(g, Absorb(lh, s))
    requires t < g.start && t != s && SteadyAt(c, g, lh, t)
    requires s < g.start && l == g.start + 1 + Slot(lh, s) && Coherent(c') && Kept(c, c', l)
    requires b < NBUF && Held(c', b, s)
    requires c'.disk == c.disk[l := c.buf[b].data] && Content(c', t) == Content(c, t)
    requires c'' == c'.Set(b, c'.buf[b].(dirty := true)) && Coherent(c'') && Content(c'', t) == Content(c', t)
    ensures SteadyAt(c'', g, Absorb(lh, s), t)
  {
    hide Content, Effective, Kept, Owner, Slot, SteadyAt, BufOk, Distinct;
    MarkedOwner(c', b, s, t);
    OwnerKept(c, c', l, t);
    EffectiveAbsorb(g, c.disk, lh, Write(s, c.buf[b].data), t);
    StaysSteady(c, c'', g, lh, Absorb(lh, s), t);
  }

  lemma LogWriteSteady(c: State, c': State, c'': State, g: Geometry, lh: seq<nat>, b: nat, s: nat, l: nat)
    requires Steady(c, g, lh) && |lh| < g.Limit() && b < NBUF && Held(c, b, s) && s < g.start
    requires l == g.start + 1 + Slot(lh, s) && Coherent(c') && Kept(c, c', l)
    requires c'.disk == c.disk[l := c.buf[b].data]
    requires forall t :: 0 <= t < g.start ==> Content(c', t) == Content(c, t)
    requires c'' == c'.Set(b, c'.buf[b].(dirty := true))
    ensures Steady(c'', g, Absorb(lh, s))
    ensures c'.buf[b] == c.buf[b]
  {
    assert BufKept(c.buf[b], c'.buf[b], l);
    MarkContent(c', b, s);
    SlotAbsorb(lh, s, s);
    assert LogList(g, Absorb(lh, s));
    forall t | 0 <= t < g.start && t != s ensures SteadyAt(c'', g, Absorb(lh, s), t) {
      LoggedOther(c, c', c'', g, lh, b, s, l, t);
    }
    MarkedOwner(c', b, s, s);
    forall i | 0 <= i < NBUF && c''.buf[i].dirty ensures c''.buf[i].sector in Absorb(lh, s) {
      assert BufKept(c.buf[i], c'.buf[i], l);
    }
  }

  /** Buffers in use by others. */
  predicate SameBusy(c: State, c': State) {
    && Shape(c) && Shape(c')
    && forall i :: 0 <= i < NBUF && (c.buf[i].busy || c'.buf[i].busy) ==> c'.buf[i] == c.buf[i]
  }

  lemma KeptBusy(c0: State, c: State, c': State, s: nat)
    requires SameBusy(c0, c) && Kept(c, c', s)
    ensures SameBusy(c0, c')
  {
    forall i | 0 <= i < NBUF && (c0.buf[i].busy || c'.buf[i].busy) ensures c'.buf[i] == c0.buf[i] {
      assert BufKept(c.buf[i], c'.buf[i], s);
    }
  }

  /** bread, memmove, bwrite and brelse of one sector. */
  function PutSector(c: State, s: nat, data: Block): (r: Option<State>)
    requires Shape(c)
    ensures r.Some? ==> Shape(r.value) && |r.value.disk| == |c.disk|
  {
    var (c1, got) := BRead(c, ROOTDEV, s);
    if !got.Got? then None
    else
      var c2 := Store(c1, got.b, data);
      if !(c2.buf[got.b].busy && c2.buf[got.b].dev == ROOTDEV && c2.buf[got.b].sector < |c2.disk|) then None
      else
        var c3 := BWrite(c2, got.b);
        if !c3.buf[got.b].busy then None else Some(BRelse(c3, got.b))
  }

  /** log_write of the buffer b, which has sector s: its log block, then the dirty flag. */
  function LogHeld(g: Geometry, c: State, lh: seq<nat>, b: nat, s: nat): (r: Option<State>)
    requires Shape(c) && b < NBUF
    ensures r.Some? ==> Shape(r.value) && |r.value.disk| == |c.disk|
  {
    var c1 := PutSector(c, g.start + 1 + Slot(lh, s), c.buf[b].data);
    if c1.None? then None else Some(c1.value.Set(b, c1.value.buf[b].(dirty := true)))
  }

  class Log {
    const cache: Cache
    const g: Geometry
    var busy: bool
    var n: nat
    var sector: seq<nat>

    ghost function Lh(): seq<nat>
      reads this
      requires n <= |sector|
    {
      sector[..n]
    }

    ghost predicate Valid()
      reads this, cache
    {
      && cache.Valid() && Coherent(cache.S()) && g.Fits(cache.disk)
      && |sector| == LOGSIZE && n <= LOGSIZE && LogList(g, Lh())
    }

    /** The log of a booting kernel, before initlog recovers. */
    constructor (c: Cache, where: Geometry)
      requires c.Valid() && Coherent(c.S()) && where.Fits(c.disk)
      ensures Valid() && cache == c && g == where && n == 0 && !busy
    {
      cache, g, busy, n := c, where, false, 0;
      sector := seq(LOGSIZE, i => 0);
    }

    /** Put new data into a held buffer, write it and release it. */
    method Put(b: nat, s: nat, data: Block) returns (ok: bool)
      requires cache.Valid() && Coherent(cache.S()) && b < NBUF && Held(cache.S(), b, s) && s < |cache.disk|
      modifies cache
      ensures ok && cache.Valid() && Coherent(cache.S())
      ensures cache.S() == BRelse(BWrite(Store(old(cache.S()), b, data), b), b)
      ensures cache.disk == old(cache.disk)[s := data] && cache.trace == old(cache.trace) + [Write(s, data)]
      ensures cache.buf == old(cache.buf)[b := cache.buf[b]] && !cache.buf[b].busy && !cache.buf[b].dirty
      ensures forall t :: 0 <= t < |cache.disk| && t != s ==> Content(cache.S(), t) == old(Content(cache.S(), t))
    {
      hide Content, Coherent, BWrite;
      ghost var c1 := cache.S();
      cache.Fill(b, data);
      ghost var c2 := cache.S();
      StoreContent(c1, b, s, data);
      BWriteContent(c2, b, s);
      ok := cache.WriteBack(b);
      ghost var c3 := cache.S();
      ok := cache.Release(b);
      PutBack(c1, c2, c3, cache.S(), b, s, data);
    }

    /** The loop of write_head: the count and the sectors over what the block held. */
    method HeaderData(b: Block) returns (data: Block)
      requires |sector| == LOGSIZE && n <= LOGSIZE && Sectors32(Lh())
      ensures data == HeaderBlock(b, Lh())
    {
      data := SetWord(b, 0, n);
      var i := 0;
      while i < n
        invariant 0 <= i <= n
        invariant data == PutSectors(SetWord(b, 0, n), Lh()[..i])
      {
        data := SetWord(data, 1 + i, sector[i]);
        assert Lh()[..i + 1][..i] == Lh()[..i];
        i := i + 1;
      }
      assert Lh()[..n] == Lh();
    }

    method WriteHead() returns (ok: bool)
      requires Valid()
      requires forall i :: 0 <= i < NBUF && cache.buf[i].dirty ==> cache.buf[i].sector < g.start
      modifies cache
      ensures cache.Valid() && (ok <==> BRead(old(cache.S()), ROOTDEV, g.start).1.Got?)
      ensures ok ==> Valid() && Kept(old(cache.S()), cache.S(), g.start)
      ensures ok ==> Wrote(old(cache.S()), cache.S(), [Write(g.start, HeaderBlock(old(cache.disk)[g.start], Lh()))])
      ensures !ok ==> Wrote(old(cache.S()), cache.S(), [])
    {
      ghost var c0 := cache.S();
      hide BRead, Content, Coherent, HeaderBlock, Kept, GotFrom;
      BReadContent(c0, g.start);
      var r := cache.Read(ROOTDEV, g.start);
      ghost var c1 := cache.S();
      if !r.Got? {
        WroteNothing(c0, c1, []);
        return false;
      }
      CleanContent(c0, g.start);
      HeldAfterRead(c0, c1, r.b, g.start);
      var data := HeaderData(cache.buf[r.b].data);
      ok := Put(r.b, g.start, data);
      OneKept(c0, c1, cache.S(), r.b, g.start);
      WroteOne(c0, cache.S(), Write(g.start, data));
    }

    /** install_trans: copy the logged blocks home, in log order. */
    method InstallTrans() returns (ok: bool)
      requires Valid()
      requires forall i :: 0 <= i < NBUF && cache.buf[i].dirty ==> cache.buf[i].sector in Lh()
      modifies cache
      ensures cache.Valid()
      ensures ok ==> Valid() && SameBusy(old(cache.S()), cache.S())
      ensures ok ==> Wrote(old(cache.S()), cache.S(), InstallWrites(g, old(cache.disk), Lh()))
      ensures ok ==> forall i :: 0 <= i < NBUF ==> !cache.buf[i].dirty
      ensures !ok ==> Stopped(old(cache.S()), cache.S(), InstallWrites(g, old(cache.disk), Lh()))
      ensures Loose(old(cache.S()), Lh()) ==> ok && Idle(cache.S())
      ensures Full(old(cache.S()), Lh()) ==> !ok
    {
      hide Coherent, Installing, Linked, IsOrder, LogList, Loose, Full, InstallWrites, SameBusy;
      ghost var c0, lh := cache.S(), Lh();
      InstallStart(c0, g, lh);
      var tail := 0;
      while tail < n
        invariant 0 <= tail <= n && Valid() && Installing(c0, cache.S(), g, lh, tail)
      {
        ok := InstallOne(tail, c0);
        if !ok {
          return;
        }
        tail := tail + 1;
      }
      InstallEnd(c0, cache.S(), g, lh);
      ok := true;
    }

    method InstallOne(tail: nat, ghost c0: State) returns (ok: bool)
      requires Valid() && tail < n && Installing(c0, cache.S(), g, Lh(), tail)
      modifies cache
      ensures cache.Valid()
      ensures ok ==> Valid() && Installing(c0, cache.S(), g, Lh(), tail + 1)
      ensures !ok ==> Stopped(c0, cache.S(), InstallWrites(g, c0.disk, Lh())) && !Loose(c0, Lh())
    {
      hide Apply, InstallWrites, Coherent, Kept, Linked, BRead, Installing, IsOrder, Stopped;
      ghost var c, lh := cache.S(), Lh();
      InstallFacts(c0, c, g, lh, tail);
      InstallGot(c, g, lh, tail);
      ok := CopyBlock(g.start + tail + 1, sector[tail]);
      if ok {
        InstallNext(c0, c, cache.S(), g, lh, tail);
      } else {
        InstallStops(c0, c, cache.S(), g, lh, tail);
      }
    }

    /** One round of install_trans: from log block l to home sector h. */
    method CopyBlock(l: nat, h: nat) returns (ok: bool)
      requires cache.Valid() && Coherent(cache.S()) && h < l < |cache.disk|
      requires forall i :: 0 <= i < NBUF && cache.buf[i].Holds(ROOTDEV, l) ==> !cache.buf[i].dirty
      modifies cache
      ensures cache.Valid() && Coherent(cache.S())
      ensures ok ==> Kept(old(cache.S()), cache.S(), h)
      ensures ok ==> cache.disk == old(cache.disk)[h := old(cache.disk)[l]]
      ensures ok ==> cache.trace == old(cache.trace) + [Write(h, old(cache.disk)[l])]
      ensures !ok ==> cache.disk == old(cache.disk) && cache.trace == old(cache.trace)
      ensures var (c1, r) := BRead(old(cache.S()), ROOTDEV, l); ok <==> r.Got? && BRead(c1, ROOTDEV, h).1.Got?
    {
      hide BRead, Content, Coherent, BWrite, Kept, Linked, GotFrom;
      ghost var c := cache.S();
      BReadContent(c, l);
      var lb := cache.Read(ROOTDEV, l);
      ghost var c1 := cache.S();
      if !lb.Got? {
        return false;
      }
      BReadContent(c1, h);
      var db := cache.Read(ROOTDEV, h);
      ghost var c2 := cache.S();
      if !db.Got? {
        return false;
      }
      ReadBoth(c, c1, c2, lb.b, db.b, l, h);
      ok := CopyHeld(lb.b, db.b, l, h);
      BothKept(c, c1, c2, cache.S(), lb.b, db.b, l, h);
    }

    /** The rest of the round: copy, write, and release both buffers. */
    method CopyHeld(lb: nat, db: nat, l: nat, h: nat) returns (ok: bool)
      requires cache.Valid() && Coherent(cache.S()) && h < l < |cache.disk| && lb < NBUF && db < NBUF && lb != db
      requires Held(cache.S(), lb, l) && Held(cache.S(), db, h)
      requires !cache.buf[lb].dirty && cache.buf[lb].data == cache.disk[l]
      modifies cache
      ensures ok && cache.Valid() && Coherent(cache.S())
      ensures cache.disk == old(cache.disk)[h := old(cache.disk)[l]]
      ensures cache.trace == old(cache.trace) + [Write(h, old(cache.disk)[l])]
      ensures cache.buf == old(cache.buf)[lb := cache.buf[lb]][db := cache.buf[db]]
      ensures forall b :: b == lb || b == db ==> !cache.buf[b].busy && !cache.buf[b].dirty
    {
      hide Content, Coherent, BWrite;
      ghost var c2 := cache.S();
      StoreContent(c2, db, h, c2.buf[lb].data);
      cache.Fill(db, cache.buf[lb].data);
      ghost var c3 := cache.S();
      BWriteContent(c3, db, h);
      ok := cache.WriteBack(db);
      ghost var c4 := cache.S();
      ok := cache.Release(lb);
      ghost var c5 := cache.S();
      ok := cache.Release(db);
      CopyOver(c2, c3, c4, c5, cache.S(), lb, db, l, h);
    }

    /** read_head: the header block becomes the in-memory header. */
    method ReadHead() returns (ok: bool)
      requires Valid() && WellFormed(g, cache.disk)
      requires forall i :: 0 <= i < NBUF ==> !cache.buf[i].dirty
      modifies this`n, this`sector, cache
      ensures cache.Valid() && cache.disk == old(cache.disk) && cache.trace == old(cache.trace)
      ensures ok <==> BRead(old(cache.S()), ROOTDEV, g.start).1.Got?
      ensures ok ==> Valid() && Lh() == HeaderSectors(cache.disk[g.start])
      ensures ok ==> forall i :: 0 <= i < NBUF ==> !cache.buf[i].dirty && (cache.buf[i].busy ==> old(cache.buf)[i].busy)
    {
      ghost var c0 := cache.S();
      hide BRead, Content;
      BReadContent(c0, g.start);
      var r := cache.Read(ROOTDEV, g.start);
      if !r.Got? {
        return false;
      }
      CleanContent(c0, g.start);
      LoadHeader(cache.buf[r.b].data);
      ghost var c1 := cache.S();
      ok := cache.Release(r.b);
      BRelseContent(c1, r.b, g.start);
    }

    /** The loop of read_head. */
    method LoadHeader(head: Block)
      requires |sector| == LOGSIZE && HeaderCount(head) <= LOGSIZE
      modifies this`n, this`sector
      ensures |sector| == LOGSIZE && n == HeaderCount(head) && Lh() == HeaderSectors(head)
    {
      n := HeaderCount(head);
      var i := 0;
      while i < n
        modifies this`sector
        invariant 0 <= i <= n <= LOGSIZE == |sector|
        invariant forall j :: 0 <= j < i ==> sector[j] == GetWord(head, 1 + j)
      {
        sector := sector[i := GetWord(head, 1 + i)];
        i := i + 1;
      }
    }

    /** recover_from_log at boot, when nothing is cached yet and nobody holds a buffer. */
    method RecoverFromLog() returns (ok: bool)
      requires Valid() && WellFormed(g, cache.disk)
      requires forall i :: 0 <= i < NBUF ==> !cache.buf[i].dirty
      modifies this`n, this`sector, cache
      ensures cache.Valid()
      ensures ok ==> n == 0 && |sector| == LOGSIZE && Steady(cache.S(), g, [])
      ensures ok ==> Wrote(old(cache.S()), cache.S(), RecoveryWrites(g, old(cache.disk)))
      ensures !ok ==> Stopped(old(cache.S()), cache.S(), RecoveryWrites(g, old(cache.disk)))
      ensures Idle(old(cache.S())) ==> ok && Idle(cache.S())
    {
      ghost var c0 := cache.S();
      ghost var ws := RecoveryWrites(g, c0.disk);
      CleanGot(c0, g.start);
      ok := ReadHead();
      if !ok {
        WroteNothing(c0, cache.S(), ws);
        return;
      }
      CleanLoose(cache.S(), Lh());
      ok := InstallAndClear(c0);
      if ok {
        MeaningIsOverlay(g, c0.disk);
        SteadyEmpty(cache.S(), g);
      }
    }

    /** install_trans, and then a header with count zero. */
    method InstallAndClear(ghost c0: State) returns (ok: bool)
      requires Valid() && cache.disk == c0.disk && cache.trace == c0.trace
      requires forall i :: 0 <= i < NBUF && cache.buf[i].dirty ==> cache.buf[i].sector in Lh()
      modifies this`n, cache
      ensures cache.Valid()
      ensures ok ==> Valid() && n == 0 && forall i :: 0 <= i < NBUF ==> !cache.buf[i].dirty
      ensures var ws := InstallWrites(g, c0.disk, old(Lh())) + [Write(g.start, SetWord(c0.disk[g.start], 0, 0))];
              if ok then Wrote(c0, cache.S(), ws) else Stopped(c0, cache.S(), ws)
      ensures Loose(old(cache.S()), old(Lh())) ==> ok && Idle(cache.S())
      ensures Full(old(cache.S()), old(Lh())) ==> !ok
    {
      hide BRead, Loose, Full;
      ghost var c1 := cache.S();
      ghost var lh := Lh();
      ghost var install := InstallWrites(g, c0.disk, lh);
      ghost var clear := [Write(g.start, SetWord(c0.disk[g.start], 0, 0))];
      ok := InstallTrans();
      if !ok {
        StoppedLater(c0, cache.S(), install, clear);
        return;
      }
      ghost var c2 := cache.S();
      HeaderUntouched(g, c0.disk, lh);
      n := 0;
      CleanGot(c2, g.start);
      ok := WriteHead();
      if ok {
        KeptIdle(c2, cache.S(), g.start);
        WroteThen(c0, c2, cache.S(), install, clear);
      } else {
        WroteNothing(c2, cache.S(), clear);
        WroteStopped(c0, c2, cache.S(), install, clear);
      }
    }

    ghost predicate InTransaction()
      reads this, cache
    {
      Valid() && Steady(cache.S(), g, Lh())
    }

    /** begin_trans; false is its sleep while another transaction runs. */
    method BeginTrans() returns (ok: bool)
      modifies this`busy
      ensures ok == !old(busy) && busy
    {
      ok := !busy;
      busy := true;
    }

    /** The scan of log_write for a slot to use. */
    method FindSlot(s: nat) returns (i: nat)
      requires n <= |sector|
      ensures i == Slot(Lh(), s)
    {
      i := 0;
      while i < n && sector[i] != s
        invariant 0 <= i <= n && s !in Lh()[..i]
      {
        i := i + 1;
      }
      SlotFirst(Lh(), s, i);
    }

    /** log_write of the held buffer b. It fails exactly when the transaction is full,
        when none is running, or when there is no buffer for the log block. */
    method LogWrite(b: nat, ghost s: nat) returns (ok: bool)
      requires InTransaction() && b < NBUF && Held(cache.S(), b, s) && s < g.start
      modifies this`n, this`sector, cache
      ensures cache.Valid()
      ensures ok <==> old(|Lh()| < g.Limit() && busy && BRead(cache.S(), ROOTDEV, g.start + 1 + Slot(Lh(), s)).1.Got?)
      ensures ok ==> InTransaction() && Lh() == Absorb(old(Lh()), s)
      ensures ok ==> LogHeld(g, old(cache.S()), old(Lh()), b, s) == Some(cache.S())
      ensures ok ==> cache.buf[b] == old(cache.buf[b]).(dirty := true)
      ensures ok ==> Effective(g, cache.disk, Lh(), s) == cache.buf[b].data
      ensures ok ==> Wrote(old(cache.S()), cache.S(), [Write(g.start + 1 + Slot(old(Lh()), s), old(cache.buf[b].data))])
      ensures !ok ==> Wrote(old(cache.S()), cache.S(), [])
      ensures ok ==> BusySame(old(cache.S()), cache.S())
    {
      hide BRead, Content, Coherent, SteadyAt, Kept, Slot, Linked, Apply, PutSector, Effective, IsOrder, Absorb;
      ghost var c0, lh := cache.S(), Lh();
      if n >= LOGSIZE || n >= g.nlog - 1 || !busy {
        WroteNothing(c0, c0, []);
        return false;
      }
      var i := FindSlot(cache.buf[b].sector);
      ghost var l := g.start + 1 + i;
      var data := cache.buf[b].data;
      sector := sector[i := cache.buf[b].sector];
      ok := LogBlock(i, data, c0, lh, b, s);
      if !ok {
        return;
      }
      if i == n {
        n := n + 1;
      }
      ghost var c1 := cache.S();
      KeptFlags(c0, c1, l);
      cache.MarkDirty(b);
      LogWriteSteady(c0, c1, cache.S(), g, lh, b, s, l);
      AbsorbSector(lh, s, i);
      EffectiveAbsorb(g, c0.disk, lh, Write(s, data), s);
      assert sector[..n] == Absorb(lh, s);
      assert Wrote(c0, cache.S(), [Write(l, data)]);
    }

    /** The bread, memmove, bwrite and brelse of the log block. */
    method LogBlock(i: nat, data: Block, ghost c0: State, ghost lh: seq<nat>, ghost b: nat, ghost s: nat) returns (ok: bool)
      requires cache.Valid() && c0 == cache.S() && Steady(c0, g, lh) && |lh| < g.Limit() && i == Slot(lh, s)
      requires b < NBUF && Held(c0, b, s) && s < g.start && data == cache.buf[b].data
      modifies cache
      ensures cache.Valid() && ok == BRead(c0, ROOTDEV, g.start + 1 + i).1.Got?
      ensures ok ==> Coherent(cache.S()) && Kept(c0, cache.S(), g.start + 1 + i)
      ensures ok ==> PutSector(c0, g.start + 1 + i, data) == Some(cache.S())
      ensures ok ==> Wrote(c0, cache.S(), [Write(g.start + 1 + i, data)])
      ensures ok ==> cache.disk == c0.disk[g.start + 1 + i := data]
      ensures ok ==> forall t :: 0 <= t < g.start ==> Content(cache.S(), t) == Content(c0, t)
      ensures !ok ==> Wrote(c0, cache.S(), [])
    {
      hide BRead, Content, Coherent, Kept, GotFrom, Steady, Slot, Linked, Apply, IsOrder, LogList;
      ghost var l := g.start + 1 + i;
      SteadyBasics(c0, g, lh);
      BReadContent(c0, l);
      var r := cache.Read(ROOTDEV, g.start + 1 + i);
      ghost var c1 := cache.S();
      if !r.Got? {
        WroteNothing(c0, c1, []);
        return false;
      }
      HeldAfterRead(c0, c1, r.b, l);
      ok := Put(r.b, g.start + 1 + i, data);
      OneKept(c0, c1, cache.S(), r.b, l);
      WroteOne(c0, cache.S(), Write(l, data));
    }

    /** commit_trans. */
    method CommitTrans() returns (ok: bool)
      requires InTransaction()
      modifies this`busy, this`n, cache
      ensures cache.Valid()
      ensures ok ==> InTransaction() && Lh() == [] && !busy
      ensures var ws := CommitTrace(g, old(cache.disk), old(Lh()));
              if ok then Wrote(old(cache.S()), cache.S(), ws) else Stopped(old(cache.S()), cache.S(), ws)
      ensures Idle(old(cache.S())) ==> (ok <==> old(n) < NBUF) && (ok ==> Idle(cache.S()))
    {
      ghost var c0, lh := cache.S(), Lh();
      if n > 0 {
        ok := CommitLogged(c0, lh);
        if !ok {
          return;
        }
      } else {
        WroteNothing(c0, c0, []);
      }
      busy := false;
      ok := true;
    }

    method CommitLogged(ghost c0: State, ghost lh: seq<nat>) returns (ok: bool)
      requires InTransaction() && n > 0 && c0 == cache.S() && lh == Lh()
      modifies this`n, cache
      ensures cache.Valid()
      ensures ok ==> InTransaction() && n == 0
      ensures var ws := CommitTrace(g, c0.disk, lh);
              if ok then Wrote(c0, cache.S(), ws) else Stopped(c0, cache.S(), ws)
      ensures Idle(c0) ==> (ok <==> |lh| < NBUF) && (ok ==> Idle(cache.S()))
    {
      hide BRead, Loose, Full, Kept, Pinned, Idle, HeaderBlock;
      ghost var h := HeaderBlock(c0.disk[g.start], lh);
      ghost var first := [Write(g.start, h)];
      CommitGot(c0, g, lh);
      ok := WriteHead();
      CommitIsRecovery(g, c0.disk, lh);
      ghost var rest := RecoveryWrites(g, c0.disk[g.start := h]);
      if !ok {
        WroteNothing(c0, cache.S(), CommitTrace(g, c0.disk, lh));
        return;
      }
      ghost var c1 := cache.S();
      ApplyOne(c0.disk, first[0]);
      CommitLoose(c0, c1, g, lh);
      ok := InstallAndClear(c1);
      if ok {
        WroteThen(c0, c1, cache.S(), first, rest);
        SteadyEmpty(cache.S(), g);
      } else {
        WroteStopped(c0, c1, cache.S(), first, rest);
      }
    }

    /** The typical use of log_write, once for each update of a system call. */
    method LogUpdates(us: seq<Write>) returns (ok: bool)
      requires InTransaction() && n == 0 && busy && Updates(g, us)
      modifies this`n, this`sector, cache
      ensures cache.Valid()
      ensures ok ==> InTransaction() && LogAll(g, us).ok && Lh() == LogAll(g, us).lh
      ensures ok ==> Wrote(old(cache.S()), cache.S(), LogAll(g, us).trace)
      ensures !ok ==> Stopped(old(cache.S()), cache.S(), LogAll(g, us).trace)
      ensures Idle(old(cache.S())) ==> (ok <==> LogAll(g, us).ok && |LogAll(g, us).lh| < NBUF) && (ok ==> Idle(cache.S()))
    {
      hide LogAll, LogOne, Apply, Steady, Coherent, LogList, Idle;
      ghost var c0 := cache.S();
      WroteNothing(c0, c0, []);
      LogNothing(g);
      assert us[..0] == [];
      var k := 0;
      while k < |us|
        invariant 0 <= k <= |us| && InTransaction() && busy
        invariant LogAll(g, us[..k]).ok && Lh() == LogAll(g, us[..k]).lh
        invariant Wrote(c0, cache.S(), LogAll(g, us[..k]).trace)
        invariant Idle(c0) ==> Idle(cache.S()) && |LogAll(g, us[..k]).lh| < NBUF
      {
        ok := LogUpdate(us[k], c0, LogAll(g, us[..k]));
        LogAnother(g, us, k);
        if !ok {
          LogGrows(g, us, k + 1);
          TracePrefix(g, us, k);
          ghost var t, done := LogAll(g, us).trace, LogAll(g, us[..k]).trace;
          assert t[..|done|] == done;
          return;
        }
        k := k + 1;
      }
      assert us[..|us|] == us;
      ok := true;
    }

    /** bread of the sector to update, and the change of its data. */
    method FetchForUpdate(u: Write) returns (r: Got)
      requires InTransaction() && u.sector < g.start
      modifies cache
      ensures cache.Valid() && cache.disk == old(cache.disk) && cache.trace == old(cache.trace)
      ensures r.Got? ==> InTransaction() && r.b < NBUF && Held(cache.S(), r.b, u.sector) && cache.buf[r.b].data == u.data
      ensures Idle(old(cache.S())) && n < NBUF ==> r.Got?
      ensures r.Got? && Idle(old(cache.S())) ==> IdleBut(cache.S(), r.b)
    {
      hide BRead, Content, Coherent, SteadyAt, GotFrom, Idle, IdleBut;
      ghost var c := cache.S();
      assert Coherent(c);
      BReadContent(c, u.sector);
      FetchGot(c, g, Lh(), u.sector);
      r := cache.Read(ROOTDEV, u.sector);
      ghost var c1 := cache.S();
      if r.Got? {
        HeldAfterRead(c, c1, r.b, u.sector);
        ReadSteady(c, c1, g, Lh(), r.b, u.sector);
        FetchIdle(c, c1, r.b, u.sector, u.data);
        cache.Fill(r.b, u.data);
        FillSteady(c1, cache.S(), g, Lh(), r.b, u.sector, u.data);
      }
    }

    method LogUpdate(u: Write, ghost c0: State, ghost t: Txn) returns (ok: bool)
      requires InTransaction() && busy && u.sector < g.start && TxnInv(g, t) && t.ok && Lh() == t.lh
      requires Wrote(c0, cache.S(), t.trace)
      modifies this`n, this`sector, cache
      ensures cache.Valid()
      ensures ok ==> InTransaction() && LogOne(g, t, u).ok && Lh() == LogOne(g, t, u).lh
      ensures ok ==> Wrote(c0, cache.S(), LogOne(g, t, u).trace)
      ensures !ok ==> Wrote(c0, cache.S(), t.trace)
      ensures Idle(old(cache.S())) ==>
                (ok <==> LogOne(g, t, u).ok && |LogOne(g, t, u).lh| < NBUF) && (ok ==> Idle(cache.S()))
    {
      hide Apply, Steady, Coherent, SteadyAt, Slot, Effective, LogList, BRead, Idle, IdleBut, BusySame, LogHeld, Linked;
      ghost var c1 := cache.S();
      var r := FetchForUpdate(u);
      if !r.Got? {
        return false;
      }
      ghost var c2 := cache.S();
      SlotGot(c2, g, t.lh, r.b, u.sector);
      ok := LogWrite(r.b, u.sector);
      ghost var c3 := cache.S();
      if !ok {
        WroteThen(c0, c2, c3, t.trace, []);
        assert t.trace + [] == t.trace;
        return;
      }
      WroteThen(c0, c2, c3, t.trace, [Write(g.start + 1 + Slot(t.lh, u.sector), u.data)]);
      ok := cache.Release(r.b);
      ReleaseIdle(c2, c3, cache.S(), r.b);
      ReleaseSteady(c3, cache.S(), g, Lh(), r.b, u.sector);
      SteadyBasics(cache.S(), g, Lh());
    }

    /** A system call: begin_trans, its updates, commit_trans. Where nobody holds a buffer
        it succeeds exactly when log_write does not panic and the sectors it logs leave one
        buffer free; they do on a log of no more blocks than there are buffers. */
    method Transact(us: seq<Write>) returns (ok: bool)
      requires InTransaction() && n == 0 && !busy && Updates(g, us)
      modifies this, cache
      ensures cache.Valid()
      ensures ok ==> InTransaction() && n == 0 && !busy && LogAll(g, us).ok
      ensures var ws := TransactionTrace(g, old(cache.disk), us);
              if ok then Wrote(old(cache.S()), cache.S(), ws) else Stopped(old(cache.S()), cache.S(), ws)
      ensures Idle(old(cache.S())) ==> (ok <==> LogAll(g, us).ok && |LogAll(g, us).lh| < NBUF) && (ok ==> Idle(cache.S()))
      ensures Idle(old(cache.S())) && g.nlog <= NBUF ==> (ok <==> LogAll(g, us).ok)
    {
      hide LogAll, Apply, Steady, Coherent, LogList, CommitTrace, Idle;
      ghost var c0 := cache.S();
      ghost var t := LogAll(g, us);
      LimitBelow(g, t);
      ok := BeginTrans();
      ok := LogUpdates(us);
      ghost var c1 := cache.S();
      if !ok {
        ghost var rest := if t.ok then CommitTrace(g, Apply(c0.disk, t.trace), t.lh) else [];
        StoppedLater(c0, c1, t.trace, rest);
        return;
      }
      ghost var commit := CommitTrace(g, c1.disk, t.lh);
      ok := CommitTrans();
      if ok {
        WroteThen(c0, c1, cache.S(), t.trace, commit);
      } else {
        WroteStopped(c0, c1, cache.S(), t.trace, commit);
      }
    }
  }

  /** The write-ahead rule. When a transaction has logged its updates and not committed,
      no home sector on disk has changed and the header still says there is none; yet a
      reader of any sector nobody is working on gets the updated contents. */
  lemma WriteAhead(c0: State, c: State, g: Geometry, us: seq<Write>)
    requires Clean(g, c0.disk) && Updates(g, us) && LogAll(g, us).ok
    requires Steady(c, g, LogAll(g, us).lh) && Wrote(c0, c, LogAll(g, us).trace)
    ensures Home(g, c.disk) == Home(g, c0.disk) && Clean(g, c.disk)
    ensures forall s :: 0 <= s < g.start && !(Owner(c.buf, s) < NBUF && c.buf[Owner(c.buf, s)].busy)
                        ==> Content(c, s) == Apply(Home(g, c0.disk), us)[s]
  {
    var t := LogAll(g, us);
    assert t.trace[..|t.trace|] == t.trace;
    LogPrefixInvisible(g, c0.disk, us, |t.trace|);
    LogHoldsLast(g, c0.disk, us);
    forall s | 0 <= s < g.start && !(Owner(c.buf, s) < NBUF && c.buf[Owner(c.buf, s)].busy)
      ensures Content(c, s) == Apply(Home(g, c0.disk), us)[s]
    {
      assert SteadyAt(c, g, t.lh, s);
      assert Overlay(g, c.disk, t.lh)[s] == Effective(g, c.disk, t.lh, s);
    }
  }

  /** Working on one's own buffer leaves the invariant alone for every other sector. */
  lemma SteadyElsewhere(c: State, c': State, g: Geometry, lh: seq<nat>, b: nat, s: nat, t: nat)
    requires Steady(c, g, lh) && b < NBUF && Coherent(c') && c' == c.(buf := c'.buf, order := c'.order)
    requires c'.buf == c.buf[b := c'.buf[b]] && c'.buf[b].Holds(ROOTDEV, s) && t < g.start && t != s
    requires c.buf[b].Holds(ROOTDEV, s) || (!c.buf[b].dirty && !c.buf[b].busy)
    requires Content(c', t) == Content(c, t)
    ensures SteadyAt(c', g, lh, t)
  {
    assert SteadyAt(c, g, lh, t);
    var o := Owner(c.buf, t);
    if o < NBUF && o != b {
      OwnerIs(c', o);
    } else if o == b {
      OwnerIs(c, b);
    }
  }

  lemma ReadSteady(c: State, c': State, g: Geometry, lh: seq<nat>, b: nat, s: nat)
    requires Steady(c, g, lh) && s < g.start && (c', Got(b)) == BRead(c, ROOTDEV, s)
    ensures Steady(c', g, lh)
  {
    BReadContent(c, s);
    hide BRead, Content, Effective;
    hide Coherent;
    assert SteadyAt(c, g, lh, s);
    ReadOwner(c, c', b, s);
    assert SteadyAt(c', g, lh, s);
    forall t | 0 <= t < g.start && t != s ensures SteadyAt(c', g, lh, t) {
      SteadyElsewhere(c, c', g, lh, b, s, t);
    }
    ReadDirty(c, c', lh, b, s);
  }

  lemma ReadOwner(c: State, c': State, b: nat, s: nat)
    requires Coherent(c) && Coherent(c') && b < NBUF && GotFrom(c, c', b, s)
    ensures Owner(c'.buf, s) == b && (Owner(c.buf, s) < NBUF ==> Owner(c.buf, s) == b)
  {
    OwnerIs(c', b);
    var o := Owner(c.buf, s);
    if o < NBUF && o != b {
      assert c'.buf[o].Holds(ROOTDEV, s);
      OwnerIs(c', o);
    }
  }

  lemma ReadDirty(c: State, c': State, lh: seq<nat>, b: nat, s: nat)
    requires Shape(c) && Shape(c') && b < NBUF && GotFrom(c, c', b, s)
    requires forall i :: 0 <= i < NBUF && c.buf[i].dirty ==> c.buf[i].sector in lh
    ensures forall i :: 0 <= i < NBUF && c'.buf[i].dirty ==> c'.buf[i].sector in lh
  {
  }

  lemma FillSteady(c: State, c': State, g: Geometry, lh: seq<nat>, b: nat, s: nat, data: Block)
    requires Steady(c, g, lh) && s < g.start && b < NBUF && Held(c, b, s) && c' == Store(c, b, data)
    ensures Steady(c', g, lh)
  {
    StoreContent(c, b, s, data);
    hide Content;
    OwnerIs(c', b);
    OwnerIs(c, b);
    assert SteadyAt(c, g, lh, s);
    forall t | 0 <= t < g.start ensures SteadyAt(c', g, lh, t) {
      if t != s {
        SteadyElsewhere(c, c', g, lh, b, s, t);
      }
    }
  }

  lemma ReleaseSteady(c: State, c': State, g: Geometry, lh: seq<nat>, b: nat, s: nat)
    requires Steady(c, g, lh) && s < g.start && b < NBUF && Held(c, b, s) && c' == BRelse(c, b)
    requires Effective(g, c.disk, lh, s) == c.buf[b].data
    ensures Steady(c', g, lh)
  {
    OwnerIs(c, b);
    assert SteadyAt(c, g, lh, s);
    BRelseContent(c, b, s);
    OwnerIs(c', b);
    assert Content(c', s) == c.buf[b].data;
    hide Content, Effective;
    forall t | 0 <= t < g.start ensures SteadyAt(c', g, lh, t) {
      if t != s {
        SteadyElsewhere(c, c', g, lh, b, s, t);
      }
    }
  }

  lemma LogNothing(g: Geometry)
    requires g.nlog > 0
    ensures LogAll(g, []) == Txn([], [], true)
  {
  }

  lemma LogAnother(g: Geometry, us: seq<Write>, k: nat)
    requires Updates(g, us) && k < |us|
    ensures LogAll(g, us[..k + 1]) == LogOne(g, LogAll(g, us[..k]), us[k])
  {
    assert us[..k + 1][..k] == us[..k];
  }

  lemma {:induction false} TracePrefix(g: Geometry, us: seq<Write>, k: nat)
    requires Updates(g, us) && k <= |us|
    ensures LogAll(g, us[..k]).trace <= LogAll(g, us).trace
  {
    if k == |us| {
      assert us[..k] == us;
    } else {
      hide LogOne;
      var m := |us| - 1;
      TracePrefix(g, us[..m], k);
      assert us[..m][..k] == us[..k];
      TraceOne(g, LogAll(g, us[..m]), us[m]);
    }
  }

  lemma TraceOne(g: Geometry, t: Txn, u: Write)
    requires TxnInv(g, t) && u.sector < g.start
    ensures t.trace <= LogOne(g, t, u).trace
    ensures LogOne(g, t, u).ok ==> t.ok && |t.lh| <= |LogOne(g, t, u).lh|
  {
  }

  lemma SlotFirst(lh: seq<nat>, s: nat, i: nat)
    requires i <= |lh| && s !in lh[..i] && (i < |lh| ==> lh[i] == s)
    ensures i == Slot(lh, s)
  {
    if i > 0 {
      assert lh[0] == lh[..i][0];
      assert lh[1..][..i - 1] == lh[..i][1..];
      SlotFirst(lh[1..], s, i - 1);
    }
  }

  lemma AbsorbSector(lh: seq<nat>, s: nat, i: nat)
    requires i == Slot(lh, s)
    ensures i < |lh| ==> lh[i := s] == lh == Absorb(lh, s)
    ensures i == |lh| ==> Absorb(lh, s) == lh + [s]
  {
  }

  lemma HeaderUntouched(g: Geometry, d: Disk, lh: seq<nat>)
    requires g.Fits(d) && LogList(g, lh)
    ensures Apply(d, InstallWrites(g, d, lh))[g.start] == d[g.start]
  {
    ApplyElsewhere(d, InstallWrites(g, d, lh), g.start);
  }

  lemma InstalledOne(c0: State, c: State, c': State, g: Geometry, lh: seq<nat>, k: nat)
    requires g.Fits(c0.disk) && LogList(g, lh) && k < |lh|
    requires Wrote(c0, c, InstallWrites(g, c0.disk, lh)[..k])
    requires var l := g.start + 1 + k;
             c'.disk == c.disk[lh[k] := c.disk[l]] && c'.trace == c.trace + [Write(lh[k], c.disk[l])]
    ensures Wrote(c0, c', InstallWrites(g, c0.disk, lh)[..k + 1])
  {
    hide Apply, InstallWrites, Slot;
    var ws := InstallWrites(g, c0.disk, lh);
    InstallPrefix(g, c0.disk, lh, k, g.start + 1 + k);
    assert c.disk[g.start + 1 + k] == c0.disk[g.start + 1 + k];
    WroteOne(c, c', ws[k]);
    WroteThen(c0, c, c', ws[..k], [ws[k]]);
    assert ws[..k + 1] == ws[..k] + [ws[k]];
  }

  lemma OneLessDirty(c: State, c': State, lh: seq<nat>, k: nat)
    requires Coherent(c) && k < |lh| && Kept(c, c', lh[k])
    requires forall i :: 0 <= i < NBUF && c.buf[i].dirty ==> c.buf[i].sector in lh[k..]
    ensures forall i :: 0 <= i < NBUF && c'.buf[i].dirty ==> c'.buf[i].sector in lh[k + 1..]
  {
    forall i | 0 <= i < NBUF && c'.buf[i].dirty ensures c'.buf[i].sector in lh[k + 1..] {
      assert BufKept(c.buf[i], c'.buf[i], lh[k]);
      assert c.buf[i].sector in lh[k..] && c.buf[i].dev == ROOTDEV;
    }
  }

  // ----- Whether there are buffers -----

  lemma KeptIdle(c: State, c': State, s: nat)
    requires Kept(c, c', s)
    ensures Idle(c) ==> Idle(c')
  {
    if Idle(c) {
      forall i | 0 <= i < NBUF ensures !c'.buf[i].busy {
        assert BufKept(c.buf[i], c'.buf[i], s);
      }
    }
  }

  lemma KeptFlags(c: State, c': State, s: nat)
    requires Kept(c, c', s)
    ensures BusySame(c, c')
  {
    forall i | 0 <= i < NBUF ensures c'.buf[i].busy == c.buf[i].busy {
      assert BufKept(c.buf[i], c'.buf[i], s);
    }
  }

  lemma CleanGot(c: State, s: nat)
    requires Coherent(c) && s < |c.disk| && forall i :: 0 <= i < NBUF ==> !c.buf[i].dirty
    ensures Idle(c) ==> BRead(c, ROOTDEV, s).1.Got?
  {
    hide BRead;
    if Idle(c) {
      IdleGot(c, s);
      assert !c.buf[0].dirty;
    }
  }

  lemma CleanLoose(c: State, lh: seq<nat>)
    requires Shape(c) && forall i :: 0 <= i < NBUF ==> !c.buf[i].dirty
    ensures Idle(c) ==> Loose(c, lh)
  {
  }

  lemma SteadyPinned(c: State, g: Geometry, lh: seq<nat>)
    requires Steady(c, g, lh)
    ensures Coherent(c) && Shape(c) && Pinned(c, lh) && DirtyIn(c, lh) && Distinct(lh) && g.Fits(c.disk)
  {
    hide Content, Effective, Owner;
    forall k | 0 <= k < |lh| ensures Owner(c.buf, lh[k]) < NBUF && c.buf[Owner(c.buf, lh[k])].dirty {
      assert SteadyAt(c, g, lh, lh[k]) && lh[k] in lh;
    }
  }

  lemma PinnedKept(c: State, c': State, lh: seq<nat>, s: nat)
    requires Coherent(c) && Coherent(c') && Kept(c, c', s) && Pinned(c, lh) && s !in lh
    ensures Pinned(c', lh)
  {
    ShapeOf(c');
    hide Owner, Coherent, Kept;
    forall k | 0 <= k < |lh| ensures Owner(c'.buf, lh[k]) < NBUF && c'.buf[Owner(c'.buf, lh[k])].dirty {
      assert lh[k] in lh;
      OwnerKept(c, c', s, lh[k]);
    }
  }

  lemma DirtyKept(c: State, c': State, lh: seq<nat>, s: nat)
    requires Kept(c, c', s) && DirtyIn(c, lh)
    ensures DirtyIn(c', lh)
  {
    forall i | 0 <= i < NBUF && c'.buf[i].dirty ensures c'.buf[i].sector in lh {
      assert BufKept(c.buf[i], c'.buf[i], s);
    }
  }

  /** install_trans gets its buffers, or finds them all taken at once. */
  lemma InstallGot(c: State, g: Geometry, lh: seq<nat>, k: nat)
    requires Coherent(c) && g.Fits(c.disk) && LogList(g, lh) && k < |lh|
    requires forall i :: 0 <= i < NBUF && c.buf[i].dirty ==> c.buf[i].sector < g.start
    ensures var (c1, r) := BRead(c, ROOTDEV, g.start + k + 1);
            && (Loose(c, lh[k..]) ==> r.Got? && BRead(c1, ROOTDEV, lh[k]).1.Got?) && (Full(c, lh) ==> !r.Got?)
  {
    hide BRead, Coherent, Owner;
    ShapeOf(c);
    var l := g.start + k + 1;
    if Loose(c, lh[k..]) {
      CopyGot(c, lh[k..], l, lh[k]);
    }
    if Full(c, lh) {
      IdleGot(c, l);
      AllDirty(c, lh);
    }
  }

  /** install_trans, begun in c0, has copied the first k logged blocks. */
  ghost predicate Installing(c0: State, c: State, g: Geometry, lh: seq<nat>, k: nat) {
    && Shape(c0) && Shape(c) && g.Fits(c0.disk) && LogList(g, lh) && k <= |lh| && SameBusy(c0, c)
    && Wrote(c0, c, InstallWrites(g, c0.disk, lh)[..k]) && DirtyIn(c, lh[k..])
    && (Loose(c0, lh) ==> Loose(c, lh[k..])) && (Full(c0, lh) ==> k == 0 && c == c0)
  }

  lemma InstallStart(c: State, g: Geometry, lh: seq<nat>)
    requires Shape(c) && g.Fits(c.disk) && LogList(g, lh)
    requires forall i :: 0 <= i < NBUF && c.buf[i].dirty ==> c.buf[i].sector in lh
    ensures Installing(c, c, g, lh, 0)
  {
    hide Loose, Full, LogList, InstallWrites;
    var ws := InstallWrites(g, c.disk, lh);
    WroteNothing(c, c, ws);
    assert ws[..0] == [] && lh[0..] == lh;
  }

  lemma InstallFacts(c0: State, c: State, g: Geometry, lh: seq<nat>, k: nat)
    requires Installing(c0, c, g, lh, k) && k < |lh|
    ensures Shape(c0) && Shape(c) && g.Fits(c0.disk) && LogList(g, lh)
    ensures forall i :: 0 <= i < NBUF && c.buf[i].dirty ==> c.buf[i].sector < g.start
  {
    hide Loose, Full, InstallWrites, Wrote, SameBusy;
    forall i | 0 <= i < NBUF && c.buf[i].dirty ensures c.buf[i].sector < g.start {
      assert c.buf[i].sector in lh[k..];
    }
  }

  lemma InstallNext(c0: State, c: State, c': State, g: Geometry, lh: seq<nat>, k: nat)
    requires Installing(c0, c, g, lh, k) && k < |lh| && Coherent(c) && Coherent(c') && Kept(c, c', lh[k]) && g.Fits(c.disk)
    requires var l := g.start + 1 + k;
             c'.disk == c.disk[lh[k] := c.disk[l]] && c'.trace == c.trace + [Write(lh[k], c.disk[l])]
    requires BRead(c, ROOTDEV, g.start + k + 1).1.Got?
    ensures Installing(c0, c', g, lh, k + 1)
  {
    hide Apply, Coherent, Kept, Loose, Full, InstallWrites, BRead, SameBusy, Wrote;
    ShapeOf(c');
    InstallFacts(c0, c, g, lh, k);
    InstallGot(c, g, lh, k);
    InstalledOne(c0, c, c', g, lh, k);
    OneLessDirty(c, c', lh, k);
    KeptBusy(c0, c, c', lh[k]);
    LooseNext(c, c', lh, k);
  }

  lemma InstallStops(c0: State, c: State, c': State, g: Geometry, lh: seq<nat>, k: nat)
    requires Installing(c0, c, g, lh, k) && k < |lh| && c'.disk == c.disk && c'.trace == c.trace && !Loose(c, lh[k..])
    ensures Shape(c0) && g.Fits(c0.disk) && LogList(g, lh)
    ensures Stopped(c0, c', InstallWrites(g, c0.disk, lh)) && !Loose(c0, lh)
  {
    hide Apply, Loose, Full, InstallWrites, SameBusy;
  }

  lemma InstallEnd(c0: State, c: State, g: Geometry, lh: seq<nat>)
    requires Installing(c0, c, g, lh, |lh|)
    ensures Shape(c0) && g.Fits(c0.disk) && LogList(g, lh) && Wrote(c0, c, InstallWrites(g, c0.disk, lh)) && SameBusy(c0, c)
    ensures (forall i :: 0 <= i < NBUF ==> !c.buf[i].dirty) && (Loose(c0, lh) ==> Idle(c)) && !Full(c0, lh)
  {
    hide Apply, InstallWrites, Wrote;
    var ws := InstallWrites(g, c0.disk, lh);
    assert ws[..|lh|] == ws && lh[|lh|..] == [];
  }

  lemma LooseNext(c: State, c': State, lh: seq<nat>, k: nat)
    requires Coherent(c) && Coherent(c') && k < |lh| && Distinct(lh) && Kept(c, c', lh[k])
    requires forall i :: 0 <= i < NBUF && c.buf[i].dirty ==> c.buf[i].sector in lh[k..]
    ensures Loose(c, lh[k..]) ==> Loose(c', lh[k + 1..])
  {
    ShapeOf(c);
    ShapeOf(c');
    if Loose(c, lh[k..]) {
      hide Owner, Coherent, Kept;
      KeptIdle(c, c', lh[k]);
      OneLessDirty(c, c', lh, k);
      if NoDirty(c) {
        NoDirtyKept(c, c', lh[k]);
      } else {
        var rest := lh[k + 1..];
        assert rest == lh[k..][1..];
        PinnedRest(c, lh[k..]);
        PinnedKept(c, c', rest, lh[k]);
      }
    }
  }

  lemma PinnedRest(c: State, lh: seq<nat>)
    requires Shape(c) && Pinned(c, lh) && lh != []
    ensures Pinned(c, lh[1..])
  {
    hide Owner;
    forall k | 0 <= k < |lh| - 1 ensures Owner(c.buf, lh[1..][k]) < NBUF && c.buf[Owner(c.buf, lh[1..][k])].dirty {
      assert lh[1..][k] == lh[k + 1];
    }
  }

  lemma NoDirtyKept(c: State, c': State, s: nat)
    requires Kept(c, c', s) && NoDirty(c)
    ensures NoDirty(c')
  {
    forall i | 0 <= i < NBUF ensures !c'.buf[i].dirty {
      assert BufKept(c.buf[i], c'.buf[i], s);
    }
  }

  /** The header's buffer at commit. */
  lemma CommitGot(c: State, g: Geometry, lh: seq<nat>)
    requires Steady(c, g, lh)
    ensures g.start < |c.disk| && Shape(c) && (Idle(c) ==> (BRead(c, ROOTDEV, g.start).1.Got? <==> |lh| < NBUF))
  {
    hide BRead, Pinned, DirtyIn, Coherent, SteadyAt;
    SteadyPinned(c, g, lh);
    assert g.start !in lh;
    if Idle(c) {
      OtherGot(c, lh, g.start);
    }
  }

  lemma CommitLoose(c: State, c': State, g: Geometry, lh: seq<nat>)
    requires Steady(c, g, lh) && Coherent(c') && Kept(c, c', g.start)
    ensures Shape(c) && Shape(c') && DirtyIn(c', lh) && (Idle(c) && |lh| < NBUF ==> Loose(c', lh))
  {
    hide Pinned, DirtyIn, Coherent, SteadyAt, Kept;
    ShapeOf(c');
    SteadyPinned(c, g, lh);
    assert g.start !in lh;
    KeptIdle(c, c', g.start);
    PinnedKept(c, c', lh, g.start);
    DirtyKept(c, c', lh, g.start);
  }

  lemma FetchGot(c: State, g: Geometry, lh: seq<nat>, s: nat)
    requires Steady(c, g, lh) && s < g.start
    ensures s < |c.disk| && Shape(c) && (Idle(c) && |lh| < NBUF ==> BRead(c, ROOTDEV, s).1.Got?)
  {
    hide BRead, Pinned, DirtyIn, Coherent, SteadyAt;
    SteadyPinned(c, g, lh);
    if Idle(c) && |lh| < NBUF {
      UpdateGot(c, lh, s);
    }
  }

  lemma FetchIdle(c: State, c1: State, b: nat, s: nat, data: Block)
    requires Shape(c) && Shape(c1) && b < NBUF && GotFrom(c, c1, b, s)
    ensures Idle(c) ==> IdleBut(c1, b) && IdleBut(Store(c1, b, data), b)
  {
  }

  /** The buffer for the log's block in log_write. */
  lemma SlotGot(c: State, g: Geometry, lh: seq<nat>, b: nat, s: nat)
    requires Steady(c, g, lh) && b < NBUF && Held(c, b, s) && s < g.start
    ensures Shape(c)
    ensures IdleBut(c, b) && |lh| < g.Limit() ==>
              && g.start + 1 + Slot(lh, s) < |c.disk|
              && (BRead(c, ROOTDEV, g.start + 1 + Slot(lh, s)).1.Got? <==> |Absorb(lh, s)| < NBUF)
  {
    hide BRead, Pinned, DirtyIn, Coherent, SteadyAt, Absorb;
    SteadyPinned(c, g, lh);
    if IdleBut(c, b) && |lh| < g.Limit() {
      var l := g.start + 1 + Slot(lh, s);
      AbsorbDistinct(lh, s);
      LogBlockGot(c, lh, b, s, l);
    }
  }

  lemma AbsorbDistinct(lh: seq<nat>, s: nat)
    requires Distinct(lh)
    ensures Distinct(Absorb(lh, s))
  {
  }

  lemma ReleaseIdle(c: State, c1: State, c': State, b: nat)
    requires Shape(c) && Shape(c1) && Shape(c') && b < NBUF && BusySame(c, c1) && c1.buf[b].busy && c' == BRelse(c1, b)
    ensures IdleBut(c, b) ==> Idle(c')
  {
  }

  /** What has been logged stays logged. */
  lemma {:induction false} LogGrows(g: Geometry, us: seq<Write>, k: nat)
    requires Updates(g, us) && k <= |us|
    ensures LogAll(g, us).ok ==> LogAll(g, us[..k]).ok && |LogAll(g, us[..k]).lh| <= |LogAll(g, us).lh|
  {
    if k == |us| {
      assert us[..k] == us;
    } else {
      hide LogOne;
      var m := |us| - 1;
      LogGrows(g, us[..m], k);
      assert us[..m][..k] == us[..k];
      TraceOne(g, LogAll(g, us[..m]), us[m]);
    }
  }

  lemma LimitBelow(g: Geometry, t: Txn)
    requires TxnInv(g, t)
    ensures g.nlog <= NBUF ==> |t.lh| < NBUF
  {
  }
}
