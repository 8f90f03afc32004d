/** writei as it holds buffers: every bread, log_write and brelse in the order of the code,
    balloc's while the indirect block is held among them. A chunk of filewrite never runs
    out of buffers, and its log_write calls are ones that FileLog speaks of. */
module FileSteps {
  import opened Blocks
  import opened Counting
  import opened Options
  import opened FileSystem
  import opened FileBytes
  import opened FileMaps
  import opened FileRoom
  import opened FileWrite
  import opened FileLog
  import opened FileCrash
  import opened LogScript
  import Recovery
  import BufferCache
  import LogRoom
  import LogRun

  // ----- The steps of the code -----

  /** bread and brelse. */
  function Look(s: nat): seq<Step> {
    [Hold(s), Drop(s)]
  }

  /** bread, a change, log_write and brelse. */
  function Touch(s: nat, data: Block): seq<Step> {
    [Hold(s), Log(s, data), Drop(s)]
  }

  /** balloc where one block has the whole bitmap: the superblock, the bitmap, the block. */
  function BallocSteps(f: Fs): seq<Step>
    requires Shape(f) && FirstFree(f, 0) < f.sb.size
  {
    var b := FirstFree(f, 0);
    BitmapInside(f.sb, b);
    Look(1) + Touch(f.sb.BBlock(b), SetBit(f.blk[f.sb.BBlock(b)], b % BPB)) + Touch(b, Zero())
  }

  /** A pointer in the inode. */
  function PointerSteps(f: Fs, i: nat, k: nat): seq<Step>
    requires Shape(f) && i < f.sb.ninodes && k <= INDIRECT && Fill(f, i, k).Some?
  {
    if Ref(f, i, k) != 0 then [] else BallocSteps(f)
  }

  /** A pointer in the indirect block, which is held meanwhile. */
  function ListedSteps(f: Fs, i: nat, k: nat): seq<Step>
    requires Shape(f) && i < f.sb.ninodes && INDIRECT < k < SLOTS && f.tab[i].addrs[INDIRECT] < f.sb.size && Fill(f, i, k).Some?
  {
    var ind := f.tab[i].addrs[INDIRECT];
    [Hold(ind)] + (if Ref(f, i, k) != 0 then [] else BallocSteps(f) + [Log(ind, Fill(f, i, k).value.blk[ind])]) + [Drop(ind)]
  }

  function BmapSteps(f: Fs, i: nat, bn: nat): seq<Step>
    requires Shape(f) && i < f.sb.ninodes && Bmap(f, i, bn).Some?
  {
    if bn < NDIRECT then PointerSteps(f, i, bn)
    else PointerSteps(f, i, INDIRECT) + ListedSteps(Fill(f, i, INDIRECT).value, i, bn + 1)
  }

  /** A round of writei's loop. */
  function ChunkSteps(f: Fs, i: nat, off: nat, src: seq<Byte>): seq<Step>
    requires Shape(f) && i < f.sb.ninodes && WriteChunk(f, i, off, src).Some?
  {
    var r := Ref(Bmap(f, i, off / BSIZE).value, i, SlotOf(off / BSIZE));
    BmapSteps(f, i, off / BSIZE) + Touch(r, WriteChunk(f, i, off, src).value.blk[r])
  }

  function LoopSteps(f: Fs, i: nat, off: nat, src: seq<Byte>): seq<Step>
    requires Shape(f) && i < f.sb.ninodes && WriteAll(f, i, off, src).Some?
    decreases |src|
  {
    if src == [] then []
    else
      var m := Chunk(off, |src|);
      ChunkSteps(f, i, off, src) + LoopSteps(WriteChunk(f, i, off, src).value, i, off + m, src[m..])
  }

  /** writei: its loop, and iupdate where the file grew. */
  function WriteiSteps(f: Fs, i: nat, off: Word, src: seq<Byte>): seq<Step>
    requires Shape(f) && i < f.sb.ninodes && Writei(f, i, off, src).Some?
  {
    if Writei(f, i, off, src).value.1 < 0 then []
    else
      var g := WriteAll(f, i, off, src).value;
      InodeInside(f.sb, i);
      LoopSteps(f, i, off, src) +
      if |src| > 0 && off + |src| > g.tab[i].size then Touch(f.sb.IBlock(i), Writei(f, i, off, src).value.0.blk[f.sb.IBlock(i)]) else []
  }

  // ----- What the steps do to the blocks, and that they go together -----

  /** The log_write calls among the steps make the blocks of g of those of f; sectors are held
      one at a time, within `may`, and logged within `log`; and those held are held again. */
  ghost predicate Fine(f: Fs, g: Fs, steps: seq<Step>, log: set<nat>, may: set<nat>, held: set<nat>) {
    var us := Logged(steps);
    && Recovery.InRange(us, |f.blk|) && Recovery.Apply(f.blk, us) == g.blk && g.logged == f.logged + Recovery.Sectors(us)
    && |g.blk| == |f.blk| && Proper(log, may, held, steps) && HeldAfter(held, steps) == held
  }

  lemma FineThen(f: Fs, h: Fs, g: Fs, a: seq<Step>, b: seq<Step>, log: set<nat>, may: set<nat>, held: set<nat>)
    requires Fine(f, h, a, log, may, held) && Fine(h, g, b, log, may, held)
    ensures Fine(f, g, a + b, log, may, held)
  {
    hide Proper, HeldAfter, Recovery.Apply, Logged;
    Concat(log, may, held, a, b);
    Recovery.ApplyConcat(f.blk, Logged(a), Logged(b));
    SectorsPlus(Logged(a), Logged(b));
  }

  lemma SectorsPlus(a: seq<Recovery.Write>, b: seq<Recovery.Write>)
    ensures Recovery.Sectors(a + b) == Recovery.Sectors(a) + Recovery.Sectors(b)
  {
    forall s | s in Recovery.Sectors(a) ensures s in Recovery.Sectors(a + b) {
      var u :| u in a && u.sector == s;
      assert u in a + b;
    }
    forall s | s in Recovery.Sectors(b) ensures s in Recovery.Sectors(a + b) {
      var u :| u in b && u.sector == s;
      assert u in a + b;
    }
  }

  lemma FineNone(f: Fs, log: set<nat>, may: set<nat>, held: set<nat>)
    ensures Fine(f, f, [], log, may, held)
  {
    assert Recovery.Sectors([]) == {};
  }

  /** Neither the inodes nor the superblock matter. */
  lemma FineSame(f: Fs, g: Fs, h: Fs, steps: seq<Step>, log: set<nat>, may: set<nat>, held: set<nat>)
    requires Fine(f, g, steps, log, may, held) && h.blk == g.blk && h.logged == g.logged
    ensures Fine(f, h, steps, log, may, held)
  {
    hide Proper, HeldAfter, Recovery.Apply, Logged;
  }

  lemma OneStep(log: set<nat>, may: set<nat>, held: set<nat>, st: Step)
    ensures Logged([st]) == LoggedBy([], st) && HeldAfter(held, [st]) == HeldBy(held, st)
    ensures Proper(log, may, held, [st]) == StepOk(log, may, held, st)
  {
    assert [st][..0] == [];
  }

  lemma LookFine(f: Fs, s: nat, log: set<nat>, may: set<nat>, held: set<nat>)
    requires s in may && s !in held
    ensures Fine(f, f, Look(s), log, may, held)
  {
    FineNone(f, log, may, held + {s});
    Wrapped(f, f, [], s, log, may, held);
    assert [Hold(s)] + [] + [Drop(s)] == Look(s);
  }

  lemma TouchFine(f: Fs, s: nat, data: Block, log: set<nat>, may: set<nat>, held: set<nat>)
    requires s in may && s in log && s !in held && s < |f.blk|
    ensures Fine(f, SetBlock(f, s, data), Touch(s, data), log, may, held)
  {
    LogFine(f, s, data, log, may, held + {s});
    Wrapped(f, SetBlock(f, s, data), [Log(s, data)], s, log, may, held);
    assert [Hold(s)] + [Log(s, data)] + [Drop(s)] == Touch(s, data);
  }

  lemma LogFine(f: Fs, s: nat, data: Block, log: set<nat>, may: set<nat>, held: set<nat>)
    requires s in held && s in log && s < |f.blk|
    ensures Fine(f, SetBlock(f, s, data), [Log(s, data)], log, may, held)
  {
    OneStep(log, may, held, Log(s, data));
    OneWrite(f, s, data);
  }

  /** Steps with a sector held around them. */
  lemma Wrapped(f: Fs, g: Fs, steps: seq<Step>, s: nat, log: set<nat>, may: set<nat>, held: set<nat>)
    requires Fine(f, g, steps, log, may, held + {s}) && s in may && s !in held
    ensures Fine(f, g, [Hold(s)] + steps + [Drop(s)], log, may, held)
  {
    hide Recovery.Apply, Proper, HeldAfter, Logged;
    var a, b := [Hold(s)], [Drop(s)];
    OneStep(log, may, held, Hold(s));
    OneStep(log, may, held + {s}, Drop(s));
    assert held + {s} - {s} == held;
    Concat(log, may, held, a, steps);
    Concat(log, may, held, a + steps, b);
    assert [] + Logged(steps) + [] == Logged(steps);
  }

  lemma OneWrite(f: Fs, s: nat, data: Block)
    requires s < |f.blk|
    ensures var us := [Recovery.Write(s, data)];
            Recovery.InRange(us, |f.blk|) && Recovery.Apply(f.blk, us) == f.blk[s := data] && Recovery.Sectors(us) == {s}
  {
    Recovery.ApplyOne(f.blk, Recovery.Write(s, data));
    assert Recovery.Write(s, data) in [Recovery.Write(s, data)];
  }

  lemma BallocFine(f: Fs, owner: map<nat, Slot>, log: set<nat>, may: set<nat>, held: set<nat>)
    requires Owned(f, owner) && FirstFree(f, 0) < f.sb.size && log <= may && 1 in may
    requires Allocate(f, FirstFree(f, 0)).logged <= log && forall s :: s in held ==> s in owner
    ensures Shape(f) && Fine(f, Allocate(f, FirstFree(f, 0)), BallocSteps(f), log, may, held)
  {
    hide Fine, Owned, Look, Touch, SetBit;
    OwnedShape(f, owner);
    FreeIsData(f, owner);
    var b := FirstFree(f, 0);
    BitmapInside(f.sb, b);
    var bb := f.sb.BBlock(b);
    OwnersData(f, owner);
    var x := SetBit(f.blk[bb], b % BPB);
    LookFine(f, 1, log, may, held);
    TouchFine(f, bb, x, log, may, held);
    var h := SetBlock(f, bb, x);
    TouchFine(h, b, Zero(), log, may, held);
    FineThen(f, f, h, Look(1), Touch(bb, x), log, may, held);
    FineThen(f, h, Allocate(f, b), Look(1) + Touch(bb, x), Touch(b, Zero()), log, may, held);
  }

  lemma OwnersData(f: Fs, owner: map<nat, Slot>)
    requires Owned(f, owner)
    ensures Shape(f) && forall b :: b in owner ==> f.sb.DataStart() <= b < f.sb.size
  {
    hide Ref, Used;
    forall b | b in owner ensures f.sb.DataStart() <= b < f.sb.size {
      assert OwnedBlock(f, owner[b], b);
    }
  }

  lemma PointerFine(f: Fs, owner: map<nat, Slot>, i: nat, k: nat, log: set<nat>, may: set<nat>)
    requires Owned(f, owner) && i < f.sb.ninodes && k <= INDIRECT && Fill(f, i, k).Some? && log <= may && 1 in may
    requires Fill(f, i, k).value.logged <= log
    ensures Shape(f) && Fine(f, Fill(f, i, k).value, PointerSteps(f, i, k), log, may, {})
  {
    hide Fine, Owned, Allocate, BallocSteps, FirstFree;
    OwnedShape(f, owner);
    if Ref(f, i, k) != 0 {
      FineNone(f, log, may, {});
    } else {
      var h := Allocate(f, FirstFree(f, 0));
      BallocFine(f, owner, log, may, {});
      FineSame(f, h, Fill(f, i, k).value, BallocSteps(f), log, may, {});
    }
  }

  lemma ListedFine(f: Fs, owner: map<nat, Slot>, i: nat, k: nat, log: set<nat>, may: set<nat>)
    requires Owned(f, owner) && i < f.sb.ninodes && INDIRECT < k < SLOTS && f.tab[i].addrs[INDIRECT] != 0
    requires f.tab[i].addrs[INDIRECT] < f.sb.size && Fill(f, i, k).Some? && log <= may && 1 in may
    requires Fill(f, i, k).value.logged <= log && f.tab[i].addrs[INDIRECT] in may
    ensures Shape(f) && Fine(f, Fill(f, i, k).value, ListedSteps(f, i, k), log, may, {})
  {
    hide Fine, Owned, Allocate, BallocSteps, FirstFree, GetWord, SetWord;
    OwnedShape(f, owner);
    IndirectOwned(f, owner, i);
    var ind, g := f.tab[i].addrs[INDIRECT], Fill(f, i, k).value;
    if Ref(f, i, k) != 0 {
      LookFine(f, ind, log, may, {});
      assert [Hold(ind)] + [] + [Drop(ind)] == Look(ind);
    } else {
      var h := Allocate(f, FirstFree(f, 0));
      assert {} + {ind} == {ind};
      BallocFine(f, owner, log, may, {ind});
      LogFine(h, ind, g.blk[ind], log, may, {ind});
      FineThen(f, h, g, BallocSteps(f), [Log(ind, g.blk[ind])], log, may, {ind});
      Wrapped(f, g, BallocSteps(f) + [Log(ind, g.blk[ind])], ind, log, may, {});
    }
  }

  // ----- All steps of writei -----

  /** What has been logged when g is reached, and what may be held on the way there. */
  predicate Allowed(g: Fs, i: nat, log: set<nat>, may: set<nat>)
    requires Shape(g) && i < g.sb.ninodes
  {
    g.logged <= log <= may && 1 in may && (g.tab[i].addrs[INDIRECT] != 0 ==> g.tab[i].addrs[INDIRECT] in may)
  }

  /** A state on the way to g. */
  lemma AllowedBefore(h: Fs, owner: map<nat, Slot>, g: Fs, owner': map<nat, Slot>, i: nat, log: set<nat>, may: set<nat>)
    requires Extends(h, owner, g, owner', i) && Frame(h, g) && Allowed(g, i, log, may)
    ensures Allowed(h, i, log, may)
  {
    hide Ref, Owned;
    OwnedShape(h, owner);
    OwnedShape(g, owner');
    PointerRef(h, i);
    PointerRef(g, i);
    if h.tab[i].addrs[INDIRECT] != 0 {
      ExtendsRef(h, owner, g, owner', i, i, INDIRECT);
    }
  }

  lemma BmapFine(f: Fs, owner: map<nat, Slot>, i: nat, bn: nat, log: set<nat>, may: set<nat>)
    requires Owned(f, owner) && i < f.sb.ninodes && Bmap(f, i, bn).Some? && Allowed(Bmap(f, i, bn).value, i, log, may)
    ensures Shape(f) && Fine(f, Bmap(f, i, bn).value, BmapSteps(f, i, bn), log, may, {})
  {
    hide Fine, Owned, Fill, Ref, PointerSteps, ListedSteps, Extends, Frame, SamePeeks;
    OwnedShape(f, owner);
    var g := Bmap(f, i, bn).value;
    if bn < NDIRECT {
      PointerFine(f, owner, i, bn, log, may);
    } else {
      var o1 := FillExtends(f, owner, i, INDIRECT);
      var h := Fill(f, i, INDIRECT).value;
      PointerRef(h, i);
      NowOwned(f, owner, h, o1, i);
      var o2 := FillExtends(h, o1, i, bn + 1);
      FillFrames(h, i, bn + 1);
      AllowedBefore(h, o1, g, o2, i, log, may);
      PointerFine(f, owner, i, INDIRECT, log, may);
      ListedFine(h, o1, i, bn + 1, log, may);
      FineThen(f, h, g, PointerSteps(f, i, INDIRECT), ListedSteps(h, i, bn + 1), log, may, {});
    }
  }

  lemma ChunkFine(f: Fs, owner: map<nat, Slot>, i: nat, off: nat, src: seq<Byte>, log: set<nat>, may: set<nat>)
    requires Owned(f, owner) && i < f.sb.ninodes && WriteChunk(f, i, off, src).Some?
    requires Allowed(WriteChunk(f, i, off, src).value, i, log, may)
    ensures Shape(f) && Fine(f, WriteChunk(f, i, off, src).value, ChunkSteps(f, i, off, src), log, may, {})
  {
    hide Fine, Owned, Bmap, Ref, BmapSteps, Touch;
    OwnedShape(f, owner);
    var h, g := Bmap(f, i, off / BSIZE).value, WriteChunk(f, i, off, src).value;
    var r := Ref(h, i, SlotOf(off / BSIZE));
    assert g == SetBlock(h, r, g.blk[r]);
    BmapFine(f, owner, i, off / BSIZE, log, may);
    TouchFine(h, r, g.blk[r], log, may, {});
    FineThen(f, h, g, BmapSteps(f, i, off / BSIZE), Touch(r, g.blk[r]), log, may, {});
  }

  lemma {:induction false} LoopFine(f: Fs, owner: map<nat, Slot>, i: nat, off: nat, src: seq<Byte>, log: set<nat>, may: set<nat>)
    requires Owned(f, owner) && i < f.sb.ninodes && WriteAll(f, i, off, src).Some?
    requires Allowed(WriteAll(f, i, off, src).value, i, log, may)
    ensures Shape(f) && Fine(f, WriteAll(f, i, off, src).value, LoopSteps(f, i, off, src), log, may, {})
    decreases |src|
  {
    hide Fine, Owned, WriteChunk, ChunkSteps, Extends, Spliced, Frame, Chunk, Allowed;
    OwnedShape(f, owner);
    if src == [] {
      FineNone(f, log, may, {});
    } else {
      var m := Chunk(off, |src|);
      var o1 := WriteChunkSplices(f, owner, i, off, src);
      var h, g := WriteChunk(f, i, off, src).value, WriteAll(f, i, off, src).value;
      NowOwned(f, owner, h, o1, i);
      var o2 := WriteAllSplices(h, o1, i, off + m, src[m..]);
      WriteAllFrames(h, i, off + m, src[m..]);
      AllowedBefore(h, o1, g, o2, i, log, may);
      ChunkFine(f, owner, i, off, src, log, may);
      LoopFine(h, o1, i, off + m, src[m..], log, may);
      FineThen(f, h, g, ChunkSteps(f, i, off, src), LoopSteps(h, i, off + m, src[m..]), log, may, {});
    }
  }

  lemma WriteiFine(f: Fs, owner: map<nat, Slot>, i: nat, off: Word, src: seq<Byte>, log: set<nat>, may: set<nat>)
    requires Owned(f, owner) && i < f.sb.ninodes && Writei(f, i, off, src).Some?
    requires Allowed(Writei(f, i, off, src).value.0, i, log, may)
    ensures Shape(f) && Fine(f, Writei(f, i, off, src).value.0, WriteiSteps(f, i, off, src), log, may, {})
  {
    hide Fine, Owned, WriteAll, LoopSteps, Touch, PutWords, InodeWords;
    OwnedShape(f, owner);
    FineNone(f, log, may, {});
    if Writei(f, i, off, src).value.1 >= 0 {
      var g, e := WriteAll(f, i, off, src).value, Writei(f, i, off, src).value.0;
      LoopFine(f, owner, i, off, src, log, may);
      if |src| > 0 && off + |src| > g.tab[i].size {
        InodeInside(f.sb, i);
        var s, h := f.sb.IBlock(i), Resize(g, i, off + |src|);
        assert e == SetBlock(h, s, e.blk[s]);
        FineSame(f, g, h, LoopSteps(f, i, off, src), log, may, {});
        TouchFine(h, s, e.blk[s], log, may, {});
        FineThen(f, h, e, LoopSteps(f, i, off, src), Touch(s, e.blk[s]), log, may, {});
      } else {
        assert LoopSteps(f, i, off, src) + [] == LoopSteps(f, i, off, src);
      }
    }
  }

  // ----- A chunk of filewrite through the cache -----

  /** The steps lead from cache c to one that nobody holds a buffer of and that reads as g;
      the log has at most seven sectors, those of the log_write calls. */
  ghost predicate Completes(f: Fs, g: Fs, steps: seq<Step>, c: BufferCache.State)
    requires BufferCache.Shape(c) && f.sb.nlog > 0
  {
    var l, us, r := LogOf(f.sb), Logged(steps), ExecAll(LogOf(f.sb), c, steps);
    && Writes(f, g, us) && Recovery.Updates(l, us) && Recovery.LogAll(l, us).ok
    && r.Some? && LogRoom.Idle(r.value.0) && LogRun.Steady(r.value.0, l, r.value.1)
    && r.value.1 == Recovery.LogAll(l, us).lh && |r.value.1| <= 7
    && LogRun.Wrote(c, r.value.0, Recovery.LogAll(l, us).trace)
    && f.sb.LogStart() <= |g.blk| && forall s :: 0 <= s < f.sb.LogStart() ==> BufferCache.Content(r.value.0, s) == g.blk[s]
  }

  /** The sectors a chunk may hold: those it logs, the superblock and the indirect block. */
  lemma MayHold(f: Fs, owner: map<nat, Slot>, i: nat, off: Word, src: seq<Byte>) returns (may: set<nat>)
    requires Owned(f, owner) && i < f.sb.ninodes && f.sb.size < BPB && f.logged == {} && |src| <= MAXWRITE && Room(f, i, off, |src|)
    ensures Writei(f, i, off, src).Some?
    ensures var g := Writei(f, i, off, src).value.0;
            Allowed(g, i, g.logged, may) && |g.logged| <= 7 && |may| <= 9 && forall s :: s in may ==> s < f.sb.LogStart()
  {
    hide Owned, Writei, RefsBelow, Missing, FreeBelow, Ref;
    OwnedShape(f, owner);
    WriteiBelow(f, owner, i, off, src);
    TransactionBound(f, owner, i, off, src);
    var g := Writei(f, i, off, src).value.0;
    PointerRef(g, i);
    RefBelow(g, f.sb.LogStart(), i, INDIRECT);
    may := g.logged + {1} + {g.tab[i].addrs[INDIRECT]};
  }

  lemma AllowedParts(g: Fs, i: nat, log: set<nat>, may: set<nat>)
    requires Shape(g) && i < g.sb.ninodes && Allowed(g, i, log, may)
    ensures g.logged <= log <= may
  {
  }

  lemma RefBelow(f: Fs, n: nat, i: nat, k: nat)
    requires Shape(f) && RefsBelow(f, n) && i < f.sb.ninodes && k < SLOTS
    ensures Ref(f, i, k) < n
  {
  }

  lemma FineWrites(f: Fs, g: Fs, steps: seq<Step>, log: set<nat>, may: set<nat>)
    requires Fine(f, g, steps, log, may, {}) && f.logged == {}
    ensures Writes(f, g, Logged(steps)) && Proper(log, may, {}, steps) && HeldAfter({}, steps) == {}
  {
  }

  lemma RanCompletes(f: Fs, g: Fs, steps: seq<Step>, c: BufferCache.State)
    requires BufferCache.Shape(c) && f.sb.nlog > 0 && LogRun.Steady(c, LogOf(f.sb), []) && |f.blk| >= f.sb.LogStart()
    requires Recovery.Home(LogOf(f.sb), c.disk) == f.blk[..f.sb.LogStart()]
    requires Ran(LogOf(f.sb), c, steps) && HeldAfter({}, steps) == {} && Writes(f, g, Logged(steps)) && |g.logged| <= 7
    ensures Completes(f, g, steps, c)
  {
    hide ExecAll, Logged, Inv, Recovery.LogAll, Recovery.Apply, Recovery.Sectors;
    hide LogRun.Wrote, LogRun.Steady, BufferCache.Content, BufferCache.Owner;
    var l, us, c1 := LogOf(f.sb), Logged(steps), ExecAll(LogOf(f.sb), c, steps).value.0;
    LogRun.SteadyBasics(c, l, []);
    InvParts(l, c1, Recovery.LogAll(l, us).lh, {});
    Recovery.LogAllFits(l, us);
    Sized(Recovery.LogAll(l, us).lh, Recovery.Sectors(us), {}, g.logged, g.logged);
    LogRun.WriteAhead(c, c1, l, us);
    ApplyBelow(f.blk, us, f.sb.LogStart());
  }

  /** A chunk of filewrite, every bread and brelse of it in the order of the code, never
      panics for want of a buffer nor of room in the log where nobody else has buffers. */
  lemma ChunkRuns(f: Fs, owner: map<nat, Slot>, i: nat, off: Word, src: seq<Byte>, c: BufferCache.State)
    requires Owned(f, owner) && i < f.sb.ninodes && f.sb.size < BPB && f.logged == {} && |src| <= MAXWRITE
    requires Room(f, i, off, |src|) && f.sb.nlog > 8
    requires BufferCache.Shape(c) && LogRoom.Idle(c) && LogRun.Steady(c, LogOf(f.sb), [])
    requires Recovery.Home(LogOf(f.sb), c.disk) == f.blk[..f.sb.LogStart()]
    ensures Writei(f, i, off, src).Some? && Completes(f, Writei(f, i, off, src).value.0, WriteiSteps(f, i, off, src), c)
  {
    hide Owned, Writei, WriteiSteps, Room, Proper, LogRun.Steady, Allowed, Ran, RefsBelow;
    OwnedShape(f, owner);
    var may := MayHold(f, owner, i, off, src);
    var g, steps := Writei(f, i, off, src).value.0, WriteiSteps(f, i, off, src);
    WriteiFine(f, owner, i, off, src, g.logged, may);
    assert g.logged <= may by { AllowedParts(g, i, g.logged, may); }
    FineWrites(f, g, steps, g.logged, may);
    ScriptRuns(LogOf(f.sb), c, steps, g.logged, may);
    RanCompletes(f, g, steps, c);
  }

  // ----- filewrite by the code of cache and log -----

  /** The log and its cache between transactions, with these blocks before the log. */
  ghost predicate AtRest(l: LogRun.Log, f: Fs)
    reads l, l.cache
  {
    && l.InTransaction() && !l.busy && l.n == 0 && LogRoom.Idle(l.cache.S()) && l.g == LogOf(f.sb)
    && f.sb.LogStart() <= |f.blk| && Recovery.Home(l.g, l.cache.disk) == f.blk[..f.sb.LogStart()]
  }

  /** A chunk of filewrite: its transaction comes to its end, and is the one of its log_write
      calls. */
  method RunChunk(l: LogRun.Log, f: Fs, ghost owner: map<nat, Slot>, i: nat, off: Word, src: seq<Byte>) returns (ok: bool)
    requires Owned(f, owner) && i < f.sb.ninodes && f.sb.size < BPB && f.logged == {} && |src| <= MAXWRITE
    requires Room(f, i, off, |src|) && f.sb.nlog > 8 && AtRest(l, f)
    modifies l, l.cache
    ensures Writei(f, i, off, src).Some? && ok && AtRest(l, Writei(f, i, off, src).value.0)
    ensures var us := Logged(WriteiSteps(f, i, off, src));
            && Writes(f, Writei(f, i, off, src).value.0, us) && Recovery.Updates(l.g, us)
            && LogRun.Wrote(old(l.cache.S()), l.cache.S(), Recovery.TransactionTrace(l.g, old(l.cache.disk), us))
  {
    hide Owned, Writei, WriteiSteps, Room, Proper, LogRun.Steady, Allowed, RefsBelow, Recovery.Apply, Recovery.TransactionTrace;
    OwnedShape(f, owner);
    ghost var d := l.cache.disk;
    LogRun.SteadyBasics(l.cache.S(), l.g, []);
    ghost var may := MayHold(f, owner, i, off, src);
    ghost var g := Writei(f, i, off, src).value.0;
    var steps := WriteiSteps(f, i, off, src);
    WriteiFine(f, owner, i, off, src, g.logged, may);
    assert g.logged <= may by { AllowedParts(g, i, g.logged, may); }
    FineWrites(f, g, steps, g.logged, may);
    ok := RunScript(l, steps, g.logged, may);
    LogRun.SteadyBasics(l.cache.S(), l.g, []);
    ChunkEnds(f, owner, i, off, src, Logged(steps), d);
  }

  /** The blocks at the end of the transaction. */
  lemma ChunkEnds(f: Fs, owner: map<nat, Slot>, i: nat, off: Word, src: seq<Byte>, us: seq<Recovery.Write>, d: seq<Block>)
    requires Owned(f, owner) && i < f.sb.ninodes && f.sb.size < BPB && f.logged == {} && |src| <= MAXWRITE
    requires Room(f, i, off, |src|) && f.sb.nlog > 8 && Writei(f, i, off, src).Some? && Writes(f, Writei(f, i, off, src).value.0, us)
    requires Recovery.Clean(LogOf(f.sb), d) && Recovery.Home(LogOf(f.sb), d) == f.blk[..f.sb.LogStart()]
    requires Recovery.Updates(LogOf(f.sb), us) && Recovery.LogAll(LogOf(f.sb), us).ok
    ensures var l := LogOf(f.sb);
            var e := Recovery.Apply(d, Recovery.TransactionTrace(l, d, us));
            |e| == |d| && f.sb.LogStart() <= |f.blk| && Recovery.Home(l, e) == Writei(f, i, off, src).value.0.blk[..f.sb.LogStart()]
  {
    hide Owned, Writei, Room, RefsBelow, Recovery.Apply, Recovery.TransactionTrace, Recovery.Meaning, Recovery.LogAll;
    OwnedShape(f, owner);
    Recovery.CleanMeaning(LogOf(f.sb), d);
    var n := |Recovery.TransactionTrace(LogOf(f.sb), d, us)|;
    ChunkAtomic(f, owner, i, off, src, us, d, n);
    Recovery.CleanMeaning(LogOf(f.sb), Recovery.Reached(LogOf(f.sb), d, Recovery.Event(Recovery.Transaction(us), n)));
  }

  lemma RoomBegin(f: Fs, owner: map<nat, Slot>, i: nat, off: nat, n: nat)
    requires Owned(f, owner) && i < f.sb.ninodes && Room(f, i, off, n)
    ensures Owned(Begin(f), owner) && Room(Begin(f), i, off, n)
  {
    var g := Begin(f);
    BeginSame(f, owner);
    hide Owned, Ref, Used, Touched, SamePeeks;
    OwnedShape(f, owner);
    forall b | 0 <= b < f.sb.size ensures Used(g, b) == Used(f, b) {
      BitmapInside(f.sb, b);
      SameUse(f, g, b);
    }
    assert FreeBelow(g, f.sb.LogStart()) == FreeBelow(f, f.sb.LogStart());
    assert Missing(g, i, off, n) == Missing(f, i, off, n);
  }

  /** filewrite, with every bread, log_write and brelse of all its transactions: where there
      is room on the disk it comes to its end, and leaves on the disk what Filewrite says. */
  method RunFilewrite(l: LogRun.Log, f: Fs, ghost owner: map<nat, Slot>, i: nat, off: Word, src: seq<Byte>)
    returns (g: Fs, off': Word, ok: bool)
    requires Owned(f, owner) && SizesOk(f) && i < f.sb.ninodes && f.sb.size < BPB && Room(f, i, off, |src|)
    requires f.sb.nlog > 8 && AtRest(l, f)
    modifies l, l.cache
    ensures Filewrite(f, i, off, src) == Some((g, off', ok)) && AtRest(l, g)
    decreases |src|
  {
    hide Owned, Writei, Room, AtRest, WriteiSteps, Writes, Recovery.TransactionTrace, LogRun.Wrote, SizesOk;
    OwnedShape(f, owner);
    if src == [] {
      return f, off, true;
    }
    var n1 := Min(|src|, MAXWRITE);
    RoomBegin(f, owner, i, off, |src|);
    RoomLess(Begin(f), i, off, n1, |src| - n1);
    assert |src[..n1]| == n1;
    RestBegin(l, f);
    ok := RunChunk(l, Begin(f), owner, i, off, src[..n1]);
    var w := Writei(Begin(f), i, off, src[..n1]).value;
    if w.1 < 0 {
      return w.0, off, false;
    }
    ghost var owner' := NextChunk(Begin(f), owner, i, off, src[..n1], |src| - n1);
    g, off', ok := RunFilewrite(l, w.0, owner', i, off + n1, src[n1..]);
  }

  lemma RestBegin(l: LogRun.Log, f: Fs)
    requires AtRest(l, f)
    ensures AtRest(l, Begin(f)) && (SizesOk(f) ==> SizesOk(Begin(f)))
  {
  }

  lemma NextChunk(f: Fs, owner: map<nat, Slot>, i: nat, off: Word, src: seq<Byte>, rest: nat) returns (owner': map<nat, Slot>)
    requires Owned(f, owner) && SizesOk(f) && i < f.sb.ninodes && f.logged == {} && Room(f, i, off, |src| + rest)
    requires Writei(f, i, off, src).Some? && Writei(f, i, off, src).value.1 >= 0
    ensures var g := Writei(f, i, off, src).value.0;
            Owned(g, owner') && SizesOk(g) && g.sb == f.sb && Room(g, i, off + |src|, rest)
  {
    hide Owned, Room, Rewritten, WriteAll, Iupdate;
    OwnedShape(f, owner);
    RoomNext(f, owner, i, off, src, rest);
    owner' := WriteiCorrect(f, owner, i, off, src);
    RewrittenSize(f, Writei(f, i, off, src).value.0, i, off, src);
  }

  lemma RoomLess(f: Fs, i: nat, off: nat, a: nat, b: nat)
    requires Shape(f) && i < f.sb.ninodes && Room(f, i, off, a + b)
    ensures Room(f, i, off, a)
  {
    MissingLess(f, i, off, a, b);
  }
}
