/** The buffer cache of bio.c as a function of its state, over the memory disk of
    memide.c. `order` is the linked list, most recently used buffer first. The main
    theorem is CacheRefines: through the cache, recycling included, clients see a
    plain array of sectors. */
module BufferCache {
  import opened Blocks
  import opened Memide
  import opened Recovery

  const NBUF: nat := 10

  /** binit's `b->dev = -1` in an unsigned field: no disk. */
  const NODEV: nat := 0xFFFF_FFFF

  datatype State = State(buf: seq<Buf>, order: seq<nat>, disk: Disk, trace: seq<Write>) {
    function Set(b: nat, x: Buf): State
      requires b < |buf|
    {
      this.(buf := buf[b := x])
    }
  }

  /** What bget comes back with: a busy buffer of its own, a sleep, or a panic. */
  datatype Got = Got(b: nat) | Sleeps | Panics

  predicate IsOrder(o: seq<nat>) {
    && |o| == NBUF && (forall i :: 0 <= i < |o| ==> o[i] < NBUF)
    && (forall i, j :: 0 <= i < j < |o| ==> o[i] != o[j])
    && (forall b :: 0 <= b < NBUF ==> b in o)
  }

  predicate Shape(c: State) {
    |c.buf| == NBUF && IsOrder(c.order)
  }

  // ----- bget, bread, bwrite, brelse -----

  /** The first list position from k on that holds the sector, or NBUF. */
  function Find(c: State, dev: nat, sector: nat, k: nat): (i: nat)
    requires Shape(c) && k <= NBUF
    ensures k <= i <= NBUF
    ensures i < NBUF ==> c.buf[c.order[i]].Holds(dev, sector)
    ensures forall j :: k <= j < i ==> !c.buf[c.order[j]].Holds(dev, sector)
    decreases NBUF - k
  {
    if k == NBUF || c.buf[c.order[k]].Holds(dev, sector) then k else Find(c, dev, sector, k + 1)
  }

  /** The last list position before k whose buffer may be recycled, or -1. */
  function Victim(c: State, k: nat): (i: int)
    requires Shape(c) && k <= NBUF
    ensures -1 <= i < k
    ensures i >= 0 ==> c.buf[c.order[i]].Reusable()
    ensures forall j :: i < j < k ==> !c.buf[c.order[j]].Reusable()
  {
    if k == 0 then -1 else if c.buf[c.order[k - 1]].Reusable() then k - 1 else Victim(c, k - 1)
  }

  function BGet(c: State, dev: nat, sector: nat): (r: (State, Got))
    requires Shape(c)
    ensures Shape(r.0) && r.0.disk == c.disk && r.0.trace == c.trace && r.0.order == c.order
    ensures r.1.Got? ==> r.1.b < NBUF
  {
    var i := Find(c, dev, sector, 0);
    if i < NBUF then
      var b := c.order[i];
      if c.buf[b].busy then (c, Sleeps) else (c.Set(b, c.buf[b].(busy := true)), Got(b))
    else
      var v := Victim(c, NBUF);
      if v < 0 then (c, Panics)
      else
        var b := c.order[v];
        (c.Set(b, Buf(true, false, false, dev, sector, c.buf[b].data)), Got(b))
  }

  /** iderw of memide.c goes through for this buffer. */
  predicate IdeReady(c: State, b: nat)
    requires Shape(c) && b < NBUF
  {
    Ready(c.buf[b], |c.disk|)
  }

  function IdeRw(c: State, b: nat): (r: State)
    requires Shape(c) && b < NBUF && IdeReady(c, b)
    ensures Shape(r) && |r.disk| == |c.disk|
  {
    var x := c.buf[b];
    State(c.buf[b := Settled(x, c.disk[x.sector])], c.order, Stored(c.disk, x),
          if x.dirty then c.trace + [Write(x.sector, x.data)] else c.trace)
  }

  function BRead(c: State, dev: nat, sector: nat): (r: (State, Got))
    requires Shape(c)
    ensures Shape(r.0) && |r.0.disk| == |c.disk| && (r.1.Got? ==> r.1.b < NBUF)
  {
    var (c', g) := BGet(c, dev, sector);
    if !g.Got? || c'.buf[g.b].valid then (c', g)
    else if IdeReady(c', g.b) then (IdeRw(c', g.b), g)
    else (c', Panics)
  }

  function BWrite(c: State, b: nat): (r: State)
    requires Shape(c) && b < NBUF
    requires c.buf[b].busy && c.buf[b].dev == ROOTDEV && c.buf[b].sector < |c.disk|
    ensures Shape(r) && |r.disk| == |c.disk|
  {
    IdeRw(c.Set(b, c.buf[b].(dirty := true)), b)
  }

  /** The list with buffer b moved to the front. */
  function ToFront(o: seq<nat>, b: nat): (r: seq<nat>)
    requires IsOrder(o) && b < NBUF
    ensures IsOrder(r)
  {
    var k := Slot(o, b);
    FrontIsOrder(o, k);
    [b] + o[..k] + o[k + 1..]
  }

  lemma FrontIsOrder(o: seq<nat>, k: nat)
    requires IsOrder(o) && k < |o|
    ensures IsOrder([o[k]] + o[..k] + o[k + 1..])
  {
    var r := [o[k]] + o[..k] + o[k + 1..];
    forall b | 0 <= b < NBUF ensures b in r {
      var i := Slot(o, b);
      assert r[if i < k then i + 1 else if i == k then 0 else i] == b;
    }
  }

  function BRelse(c: State, b: nat): (r: State)
    requires Shape(c) && b < NBUF && c.buf[b].busy
    ensures Shape(r)
  {
    c.(buf := c.buf[b := c.buf[b].(busy := false)], order := ToFront(c.order, b))
  }

  /** The client's stores into b->data. */
  function Store(c: State, b: nat, data: Block): (r: State)
    requires Shape(c) && b < NBUF
    ensures Shape(r)
  {
    c.Set(b, c.buf[b].(data := data))
  }

  // ----- What the cache promises -----

  /** At most one buffer per assigned sector. Only buffers with data of this disk are
      valid, only valid ones are dirty, and a valid buffer that nobody uses and that
      is not waiting to be written equals its sector. */
  predicate Coherent(c: State) {
    && Shape(c)
    && (forall i, j :: 0 <= i < j < NBUF && c.buf[i].Holds(c.buf[j].dev, c.buf[j].sector) ==> c.buf[i].dev == NODEV)
    && (forall i :: 0 <= i < NBUF ==> BufOk(c.buf[i], c.disk))
  }

  predicate BufOk(x: Buf, disk: Disk) {
    && (x.valid ==> x.dev == ROOTDEV && x.sector < |disk|)
    && (x.dirty ==> x.valid)
    && (x.valid && !x.dirty && !x.busy ==> x.data == disk[x.sector])
  }

  /** The buffer that holds sector s of the disk, or NBUF. */
  function Owner(buf: seq<Buf>, s: nat): (b: nat)
    ensures b <= |buf|
    ensures b < |buf| ==> buf[b].Holds(ROOTDEV, s)
    ensures b == |buf| ==> forall i :: 0 <= i < |buf| ==> !buf[i].Holds(ROOTDEV, s)
  {
    if buf == [] then 0
    else if buf[|buf| - 1].Holds(ROOTDEV, s) then |buf| - 1
    else
      var b := Owner(buf[..|buf| - 1], s);
      if b == |buf| - 1 then |buf| else b
  }

  /** What a reader of sector s gets: the cached copy, or else the sector. */
  function Content(c: State, s: nat): Block
    requires Shape(c) && s < |c.disk|
  {
    var b := Owner(c.buf, s);
    if b < NBUF && c.buf[b].valid then c.buf[b].data else c.disk[s]
  }

  predicate Unshared(c: State, b: nat, x: Buf)
    requires Shape(c) && b < NBUF
  {
    x.dev == NODEV || forall i :: 0 <= i < NBUF && i != b ==> !c.buf[i].Holds(x.dev, x.sector)
  }

  lemma SetCoherent(c: State, b: nat, x: Buf)
    requires Coherent(c) && b < NBUF && BufOk(x, c.disk) && Unshared(c, b, x)
    ensures Coherent(c.Set(b, x))
  {
  }

  lemma OwnerIs(c: State, b: nat)
    requires Coherent(c) && b < NBUF && c.buf[b].dev == ROOTDEV
    ensures Owner(c.buf, c.buf[b].sector) == b
  {
  }

  /** What changing one buffer does to what readers get. */
  lemma SetContent(c: State, b: nat, x: Buf, s: nat)
    requires Coherent(c) && b < NBUF && Coherent(c.Set(b, x)) && s < |c.disk|
    ensures Content(c.Set(b, x), s) ==
              if x.Holds(ROOTDEV, s) && x.valid then x.data
              else if x.Holds(ROOTDEV, s) || c.buf[b].Holds(ROOTDEV, s) then c.disk[s]
              else Content(c, s)
  {
    var c' := c.Set(b, x);
    var o, o' := Owner(c.buf, s), Owner(c'.buf, s);
    if x.Holds(ROOTDEV, s) {
      OwnerIs(c', b);
    } else if c.buf[b].Holds(ROOTDEV, s) {
      OwnerIs(c, b);
    } else if o < NBUF {
      assert c'.buf[o] == c.buf[o];
      OwnerIs(c', o);
    }
  }

  /** The buffer bget returns: nobody else's, and dirty only if it was a dirty copy of
      this very sector. */
  predicate GotFrom(c: State, c': State, b: nat, sector: nat)
    requires Shape(c) && Shape(c') && b < NBUF
  {
    && !c.buf[b].busy && c' == c.Set(b, c'.buf[b])
    && c'.buf[b].Holds(ROOTDEV, sector) && c'.buf[b].busy
    && c'.buf[b].dirty == c.buf[b].dirty
    && (c.buf[b].dirty ==> c.buf[b].Holds(ROOTDEV, sector))
  }

  lemma GotUnshared(c: State, sector: nat)
    requires Coherent(c) && BGet(c, ROOTDEV, sector).1.Got?
    ensures var (c', g) := BGet(c, ROOTDEV, sector);
            && GotFrom(c, c', g.b, sector) && Unshared(c, g.b, c'.buf[g.b]) && BufOk(c'.buf[g.b], c.disk)
            && (c'.buf[g.b] == c.buf[g.b].(busy := true)
                || (!c'.buf[g.b].valid && c.buf[g.b].Reusable() && Owner(c.buf, sector) == NBUF))
  {
    var i := Find(c, ROOTDEV, sector, 0);
    if i == NBUF {
      NotCached(c, sector);
    }
  }

  /** Getting a buffer, recycled or not, hides no data: what is recycled is clean. */
  lemma BGetContent(c: State, sector: nat)
    requires Coherent(c)
    ensures var (c', g) := BGet(c, ROOTDEV, sector);
            && Coherent(c')
            && (forall s :: 0 <= s < |c.disk| ==> Content(c', s) == Content(c, s))
            && (g.Got? ==> GotFrom(c, c', g.b, sector))
  {
    if BGet(c, ROOTDEV, sector).1.Got? {
      GotUnshared(c, sector);
      var (c', g) := BGet(c, ROOTDEV, sector);
      hide BGet, Content, Coherent;
      SetCoherent(c, g.b, c'.buf[g.b]);
      forall s | 0 <= s < |c.disk| ensures Content(c', s) == Content(c, s) {
        GotContent(c, g.b, c'.buf[g.b], s);
      }
    }
  }

  lemma GotContent(c: State, b: nat, x: Buf, s: nat)
    requires Coherent(c) && b < NBUF && Coherent(c.Set(b, x)) && s < |c.disk|
    requires x == c.buf[b].(busy := true)
             || (!x.valid && c.buf[b].Reusable() && x.dev == ROOTDEV && Owner(c.buf, x.sector) == NBUF)
    ensures Content(c.Set(b, x), s) == Content(c, s)
  {
    SetContent(c, b, x, s);
    if c.buf[b].Holds(ROOTDEV, s) {
      OwnerIs(c, b);
    }
  }

  lemma NotCached(c: State, sector: nat)
    requires Shape(c) && Find(c, ROOTDEV, sector, 0) == NBUF
    ensures Owner(c.buf, sector) == NBUF
    ensures forall i :: 0 <= i < NBUF ==> !c.buf[i].Holds(ROOTDEV, sector)
  {
    forall i | 0 <= i < NBUF ensures !c.buf[i].Holds(ROOTDEV, sector) {
      assert i in c.order;
    }
  }

  /** bget sleeps exactly on a busy copy, and panics exactly when the sector is not
      cached and every buffer is busy or dirty. */
  lemma GetOutcome(c: State, sector: nat)
    requires Coherent(c)
    ensures var g, o := BGet(c, ROOTDEV, sector).1, Owner(c.buf, sector);
            && (g.Sleeps? <==> o < NBUF && c.buf[o].busy)
            && (g.Panics? <==> o == NBUF && forall i :: 0 <= i < NBUF ==> c.buf[i].busy || c.buf[i].dirty)
  {
    var i := Find(c, ROOTDEV, sector, 0);
    if i < NBUF {
      OwnerIs(c, c.order[i]);
    } else {
      NotCached(c, sector);
      forall i | 0 <= i < NBUF && c.buf[i].Reusable() ensures Victim(c, NBUF) >= 0 {
        assert i in c.order;
      }
    }
  }

  lemma BReadContent(c: State, sector: nat)
    requires Coherent(c) && sector < |c.disk|
    ensures var (c', g) := BRead(c, ROOTDEV, sector);
            && Coherent(c') && c'.disk == c.disk && c'.trace == c.trace
            && (forall s :: 0 <= s < |c.disk| ==> Content(c', s) == Content(c, s))
            && g == BGet(c, ROOTDEV, sector).1
            && (g.Got? ==> GotFrom(c, c', g.b, sector) && c'.buf[g.b].valid && c'.buf[g.b].data == Content(c, sector))
  {
    BGetContent(c, sector);
    hide BGet;
    var (c1, g) := BGet(c, ROOTDEV, sector);
    if g.Got? {
      OwnerIs(c1, g.b);
      if !c1.buf[g.b].valid {
        hide Content;
        LoadContent(c1, g.b, sector);
      }
    }
  }

  lemma LoadContent(c: State, b: nat, sector: nat)
    requires Coherent(c) && b < NBUF && c.buf[b].Holds(ROOTDEV, sector) && c.buf[b].busy && !c.buf[b].valid
    requires sector < |c.disk|
    ensures var c' := IdeRw(c, b);
            && Coherent(c') && c' == c.Set(b, c'.buf[b]) && Held(c', b, sector) && !c'.buf[b].dirty
            && c'.buf[b].data == Content(c, sector)
            && forall s :: 0 <= s < |c.disk| ==> Content(c', s) == Content(c, s)
  {
    OwnerIs(c, b);
    var x := c.buf[b].(data := c.disk[sector], valid := true);
    SetCoherent(c, b, x);
    forall s | 0 <= s < |c.disk| ensures Content(c.Set(b, x), s) == Content(c, s) {
      SetContent(c, b, x, s);
    }
  }

  /** The caller has sector s in buffer b. */
  predicate Held(c: State, b: nat, s: nat)
    requires Shape(c) && b < NBUF
  {
    c.buf[b].Holds(ROOTDEV, s) && c.buf[b].busy && c.buf[b].valid
  }

  lemma StoreContent(c: State, b: nat, sector: nat, data: Block)
    requires Coherent(c) && b < NBUF && Held(c, b, sector)
    ensures var c' := Store(c, b, data);
            && Coherent(c') && Held(c', b, sector)
            && forall s :: 0 <= s < |c.disk| ==> Content(c', s) == if s == sector then data else Content(c, s)
  {
    var x := c.buf[b].(data := data);
    SetCoherent(c, b, x);
    forall s | 0 <= s < |c.disk|
      ensures Content(c.Set(b, x), s) == if s == sector then data else Content(c, s)
    {
      SetContent(c, b, x, s);
    }
  }

  /** Marking a held buffer dirty, as log_write does to keep it from being recycled. */
  lemma MarkContent(c: State, b: nat, sector: nat)
    requires Coherent(c) && b < NBUF && Held(c, b, sector)
    ensures var c' := c.Set(b, c.buf[b].(dirty := true));
            && Coherent(c') && Held(c', b, sector)
            && forall s :: 0 <= s < |c.disk| ==> Content(c', s) == Content(c, s)
  {
    var x := c.buf[b].(dirty := true);
    SetCoherent(c, b, x);
    forall s | 0 <= s < |c.disk| ensures Content(c.Set(b, x), s) == Content(c, s) {
      SetContent(c, b, x, s);
      OwnerIs(c, b);
    }
  }

  lemma BWriteContent(c: State, b: nat, sector: nat)
    requires Coherent(c) && b < NBUF && Held(c, b, sector)
    ensures var c' := BWrite(c, b);
            && Coherent(c') && Held(c', b, sector) && !c'.buf[b].dirty
            && c'.disk == c.disk[sector := c.buf[b].data]
            && c'.trace == c.trace + [Write(sector, c.buf[b].data)]
            && c'.buf == c.buf[b := c.buf[b].(dirty := false)]
            && forall s :: 0 <= s < |c.disk| ==> Content(c', s) == Content(c, s)
  {
    var c' := BWrite(c, b);
    OwnerIs(c, b);
    assert Coherent(c') by {
      forall i | 0 <= i < NBUF && i != b && c.buf[i].valid ensures c.buf[i].sector != sector {
        OwnerIs(c, i);
      }
    }
    OwnerIs(c', b);
    forall s | 0 <= s < |c.disk| && s != sector ensures Content(c', s) == Content(c, s) {
      var o := Owner(c.buf, s);
      if o < NBUF {
        OwnerIs(c', o);
      }
    }
  }

  lemma BRelseContent(c: State, b: nat, sector: nat)
    requires Coherent(c) && b < NBUF && Held(c, b, sector)
    requires c.buf[b].dirty || c.buf[b].data == c.disk[sector]
    ensures var c' := BRelse(c, b);
            Coherent(c') && forall s :: 0 <= s < |c.disk| ==> Content(c', s) == Content(c, s)
  {
    var x := c.buf[b].(busy := false);
    SetCoherent(c, b, x);
    forall s | 0 <= s < |c.disk| ensures Content(c.Set(b, x), s) == Content(c, s) {
      SetContent(c, b, x, s);
      OwnerIs(c, b);
    }
  }

  // ----- Runs of clients that follow the interface -----

  datatype Op = Read(s: nat) | Change(s: nat, data: Block) | WriteBack(s: nat) | Release(s: nat)

  /** The plain array of sectors: which sectors are in use, and which were changed and
      not written back yet. */
  datatype Plain = Plain(mem: Disk, held: set<nat>, pending: set<nat>)

  /** The interface at the top of bio.c: one user at a time, bwrite after changing the
      data, and no use after brelse. */
  predicate Follows(p: Plain, op: Op) {
    match op
    case Read(s) => s < |p.mem| && s !in p.held
    case Change(s, _) => s < |p.mem| && s in p.held
    case WriteBack(s) => s < |p.mem| && s in p.held
    case Release(s) => s < |p.mem| && s in p.held && s !in p.pending
  }

  function PlainStep(p: Plain, op: Op): Plain
    requires Follows(p, op)
  {
    match op
    case Read(s) => p.(held := p.held + {s})
    case Change(s, data) => p.(mem := p.mem[s := data], pending := p.pending + {s})
    case WriteBack(s) => p.(pending := p.pending - {s})
    case Release(s) => p.(held := p.held - {s})
  }

  predicate Related(c: State, p: Plain) {
    && Coherent(c) && |p.mem| == |c.disk| && p.pending <= p.held
    && (forall i :: 0 <= i < NBUF ==> BufRelated(c.buf[i], p))
    && (forall s :: s in p.held ==> HeldRelated(c, s))
    && (forall s :: 0 <= s < |c.disk| ==> SectorRelated(c, p, s))
  }

  predicate BufRelated(x: Buf, p: Plain) {
    !x.dirty && (x.busy ==> x.dev == ROOTDEV && x.sector in p.held)
  }

  predicate HeldRelated(c: State, s: nat)
    requires Shape(c)
  {
    s < |c.disk| && Owner(c.buf, s) < NBUF && Held(c, Owner(c.buf, s), s)
  }

  predicate SectorRelated(c: State, p: Plain, s: nat)
    requires Shape(c) && s < |c.disk| == |p.mem|
  {
    Content(c, s) == p.mem[s] && (s !in p.pending ==> c.disk[s] == p.mem[s])
  }

  /** The same operation through the cache, and the buffer it was done on. A process
      that does not have the sector from bread has no buffer to work on. */
  function CacheStep(c: State, op: Op): (r: (State, Got))
    requires Shape(c)
    ensures Shape(r.0) && (r.1.Got? ==> r.1.b < NBUF)
  {
    if op.Read? then BRead(c, ROOTDEV, op.s)
    else
      var b := Owner(c.buf, op.s);
      if b == NBUF || !Held(c, b, op.s) || op.s >= |c.disk| then (c, Panics)
      else
        (if op.Change? then Store(c, b, op.data) else if op.WriteBack? then BWrite(c, b) else BRelse(c, b), Got(b))
  }

  lemma ReadRelated(c: State, p: Plain, s: nat)
    requires Related(c, p) && s < |p.mem| && s !in p.held
    ensures var (c', g) := BRead(c, ROOTDEV, s);
            if g.Got? then Related(c', PlainStep(p, Read(s))) && Held(c', g.b, s) && c'.buf[g.b].data == p.mem[s]
            else g.Panics? && forall i :: 0 <= i < NBUF ==> c.buf[i].busy
  {
    BReadContent(c, s);
    assert SectorRelated(c, p, s);
    var (c', g) := BRead(c, ROOTDEV, s);
    if g.Got? {
      ReadKeeps(c, c', p, g.b, s);
    } else {
      GetOutcome(c, s);
      assert forall i :: 0 <= i < NBUF ==> BufRelated(c.buf[i], p);
    }
  }

  lemma ReadKeeps(c: State, c': State, p: Plain, b: nat, s: nat)
    requires Related(c, p) && s < |p.mem| && s !in p.held && b < NBUF && !c.buf[b].busy
    requires Coherent(c') && c'.disk == c.disk && c' == c.Set(b, c'.buf[b]) && Held(c', b, s) && !c'.buf[b].dirty
    requires forall t :: 0 <= t < |c.disk| ==> Content(c', t) == Content(c, t)
    ensures Related(c', PlainStep(p, Read(s)))
  {
    var p' := PlainStep(p, Read(s));
    forall t | t in p'.held ensures HeldRelated(c', t) {
      if t == s {
        OwnerIs(c', b);
      } else {
        assert HeldRelated(c, t);
        HeldKept(c, c', p, t);
      }
    }
    forall t | 0 <= t < |c.disk| ensures SectorRelated(c', p', t) {
      assert SectorRelated(c, p, t);
    }
    forall i | 0 <= i < NBUF ensures BufRelated(c'.buf[i], p') {
      assert BufRelated(c.buf[i], p);
    }
  }

  lemma HeldKept(c: State, c': State, p: Plain, t: nat)
    requires Related(c, p) && t in p.held && Coherent(c') && |c'.disk| == |c.disk|
    requires var o := Owner(c.buf, t); o < NBUF && Held(c', o, t)
    ensures HeldRelated(c', t)
  {
    OwnerIs(c', Owner(c.buf, t));
  }

  lemma ChangeRelated(c: State, p: Plain, s: nat, data: Block)
    requires Related(c, p) && s < |p.mem| && s in p.held
    ensures Related(Store(c, Owner(c.buf, s), data), PlainStep(p, Change(s, data)))
  {
    var b := Owner(c.buf, s);
    var c', p' := Store(c, b, data), PlainStep(p, Change(s, data));
    StoreContent(c, b, s, data);
    forall t | t in p'.held ensures HeldRelated(c', t) {
      HeldKept(c, c', p, t);
    }
    forall t | 0 <= t < |c.disk| ensures SectorRelated(c', p', t) {
      assert SectorRelated(c, p, t);
    }
  }

  lemma WriteBackRelated(c: State, p: Plain, s: nat)
    requires Related(c, p) && s < |p.mem| && s in p.held
    ensures Related(BWrite(c, Owner(c.buf, s)), PlainStep(p, WriteBack(s)))
    ensures BWrite(c, Owner(c.buf, s)).buf[Owner(c.buf, s)].data == p.mem[s]
  {
    var b := Owner(c.buf, s);
    var c', p' := BWrite(c, b), PlainStep(p, WriteBack(s));
    BWriteContent(c, b, s);
    assert SectorRelated(c, p, s);
    forall t | t in p'.held ensures HeldRelated(c', t) {
      HeldKept(c, c', p, t);
    }
    forall t | 0 <= t < |c.disk| ensures SectorRelated(c', p', t) {
      assert SectorRelated(c, p, t);
    }
  }

  lemma ReleaseRelated(c: State, p: Plain, s: nat)
    requires Related(c, p) && Follows(p, Release(s))
    ensures Related(BRelse(c, Owner(c.buf, s)), PlainStep(p, Release(s)))
    ensures c.buf[Owner(c.buf, s)].data == p.mem[s]
  {
    var b := Owner(c.buf, s);
    var c', p' := BRelse(c, b), PlainStep(p, Release(s));
    assert SectorRelated(c, p, s);
    BRelseContent(c, b, s);
    forall t | t in p'.held ensures HeldRelated(c', t) {
      HeldKept(c, c', p, t);
    }
    forall i | 0 <= i < NBUF && c'.buf[i].busy ensures BufRelated(c'.buf[i], p') {
      OwnerIs(c, i);
    }
    forall t | 0 <= t < |c.disk| ensures SectorRelated(c', p', t) {
      assert SectorRelated(c, p, t);
    }
  }

  /** Each operation does to the cache what it does to the plain array, and shows the
      client the plain array's data; it fails only for want of a buffer. */
  lemma StepRelated(c: State, p: Plain, op: Op)
    requires Related(c, p) && Follows(p, op)
    ensures var (c', g) := CacheStep(c, op);
            if g.Got? then
              Related(c', PlainStep(p, op)) && g.b < NBUF && c'.buf[g.b].data == PlainStep(p, op).mem[op.s]
            else op.Read? && forall i :: 0 <= i < NBUF ==> c.buf[i].busy
  {
    match op
    case Read(s) => ReadRelated(c, p, s);
    case Change(s, data) => ChangeRelated(c, p, s, data);
    case WriteBack(s) => WriteBackRelated(c, p, s);
    case Release(s) => ReleaseRelated(c, p, s);
  }

  /** Run the operations through the cache until one breaks the interface or finds no
      buffer; also the data each operation showed. */
  function CacheRun(c: State, p: Plain, ops: seq<Op>): (r: (State, seq<Block>))
    requires Shape(c)
    ensures |r.1| <= |ops|
    decreases |ops|
  {
    if ops == [] || !Follows(p, ops[0]) then (c, [])
    else
      var (c', g) := CacheStep(c, ops[0]);
      if !g.Got? then (c, [])
      else
        var r := CacheRun(c', PlainStep(p, ops[0]), ops[1..]);
        (r.0, [c'.buf[g.b].data] + r.1)
  }

  /** The first n operations on the plain array. */
  function PlainRun(p: Plain, ops: seq<Op>, n: nat): (r: (Plain, seq<Block>))
    requires n <= |ops|
    decreases n
  {
    if n == 0 || !Follows(p, ops[0]) then (p, [])
    else
      var p' := PlainStep(p, ops[0]);
      var r := PlainRun(p', ops[1..], n - 1);
      (r.0, [p'.mem[ops[0].s]] + r.1)
  }

  /** The cache refines a plain array of sectors: every operation of every run shows the
      client exactly the plain array's data, and a run stops early only where the client
      breaks the interface or has all the buffers in use. */
  lemma {:induction false} CacheRefines(c: State, p: Plain, ops: seq<Op>)
    requires Related(c, p)
    ensures var (e, seen) := CacheRun(c, p, ops);
            var n := |seen|;
            var (q, expected) := PlainRun(p, ops, n);
            && seen == expected && Related(e, q)
            && (n < |ops| ==> !Follows(q, ops[n]) || (ops[n].Read? && forall i :: 0 <= i < NBUF ==> e.buf[i].busy))
    decreases |ops|
  {
    hide CacheStep;
    if ops != [] && Follows(p, ops[0]) {
      StepRelated(c, p, ops[0]);
      var (c', g) := CacheStep(c, ops[0]);
      if g.Got? {
        var p' := PlainStep(p, ops[0]);
        CacheRefines(c', p', ops[1..]);
        var r := CacheRun(c', p', ops[1..]);
        assert CacheRun(c, p, ops) == (r.0, [c'.buf[g.b].data] + r.1);
        assert |r.1| < |ops| - 1 ==> ops[1..][|r.1|] == ops[|r.1| + 1];
      }
    }
  }

  // ----- The order of the list -----

  /** The operations one after the other, whoever makes them, and the buffers released. */
  function Released(c: State, ops: seq<Op>): (r: (State, seq<nat>))
    requires Shape(c)
    ensures Shape(r.0) && forall i :: 0 <= i < |r.1| ==> r.1[i] < NBUF
  {
    if ops == [] then (c, [])
    else
      var m := |ops| - 1;
      var (d, rel) := Released(c, ops[..m]);
      var (e, g) := CacheStep(d, ops[m]);
      (e, if ops[m].Release? && g.Got? then rel + [g.b] else rel)
  }

  lemma SlotIs(o: seq<nat>, k: nat)
    requires IsOrder(o) && k < |o|
    ensures Slot(o, o[k]) == k
  {
  }

  /** Moving b to the front changes nothing among the others. */
  lemma FrontSlot(o: seq<nat>, b: nat, x: nat)
    requires IsOrder(o) && b < NBUF && x < NBUF
    ensures var i, k := Slot(o, x), Slot(o, b);
            Slot(ToFront(o, b), x) == if x == b then 0 else if i < k then i + 1 else i
    ensures Slot(o, x) == Slot(o, b) ==> x == b
  {
    var r, i, k := ToFront(o, b), Slot(o, x), Slot(o, b);
    var j := if x == b then 0 else if i < k then i + 1 else i;
    assert o[i] == x && o[k] == b && r[j] == x;
    SlotIs(r, j);
  }

  lemma StepOrder(c: State, op: Op)
    requires Shape(c)
    ensures var (c', g) := CacheStep(c, op); c'.order == if op.Release? && g.Got? then ToFront(c.order, g.b) else c.order
  {
    hide BGet;
  }

  /** Of two buffers the one released last comes first in the list, and one never released
      after all that were. */
  lemma {:induction false} RecentFirst(c: State, ops: seq<Op>, j: nat, x: nat)
    requires Shape(c) && x < NBUF && j < |Released(c, ops).1| && x !in Released(c, ops).1[j..]
    ensures var (e, rel) := Released(c, ops); Slot(e.order, rel[j]) < Slot(e.order, x)
    decreases |ops|
  {
    hide CacheStep, ToFront, Slot;
    var m := |ops| - 1;
    var (d, rel) := Released(c, ops[..m]);
    var (e, g) := CacheStep(d, ops[m]);
    StepOrder(d, ops[m]);
    var rel' := Released(c, ops).1;
    if j < |rel| {
      forall y | y in rel[j..] ensures y in rel'[j..] {
        var i :| 0 <= i < |rel[j..]| && rel[j..][i] == y;
        assert rel'[j..][i] == y;
      }
      RecentFirst(c, ops[..m], j, x);
    }
    if ops[m].Release? && g.Got? {
      assert rel'[|rel|] == g.b && rel'[j..][|rel| - j] == g.b;
      FrontSlot(d.order, g.b, rel'[j]);
      FrontSlot(d.order, g.b, x);
    }
  }

  /** A buffer that bget recycles was released before every other one it could have taken. */
  lemma RecyclesOldest(c: State, ops: seq<Op>, s: nat, j: nat, x: nat)
    requires Shape(c) && j < |Released(c, ops).1| && x < NBUF
    requires var (e, rel) := Released(c, ops);
             && Find(e, ROOTDEV, s, 0) == NBUF && BGet(e, ROOTDEV, s).1 == Got(rel[j])
             && x != rel[j] && !e.buf[x].busy && !e.buf[x].dirty
    ensures x in Released(c, ops).1[j..]
  {
    var (e, rel) := Released(c, ops);
    var v := Victim(e, NBUF);
    SlotIs(e.order, v);
    var k := Slot(e.order, x);
    assert e.order[k] == x;
    if x !in rel[j..] {
      RecentFirst(c, ops, j, x);
    }
  }
}
