/** The file layer on the log: a chunk of filewrite is one transaction, its log_write calls
    fit the log, and a crash anywhere in it leaves the blocks before it or after it. */
module FileLog {
  import opened Blocks
  import opened Counting
  import opened Options
  import opened FileSystem
  import opened FileBytes
  import opened FileMaps
  import opened FileRoom
  import opened FileWrite
  import Recovery

  // ----- Only logged blocks change -----

  /** From f to g blocks were changed through log_write alone. */
  ghost predicate Frame(f: Fs, g: Fs) {
    && |g.blk| == |f.blk| && f.logged <= g.logged && (forall b :: b in g.logged && b !in f.logged ==> b < |f.blk|)
    && forall b :: 0 <= b < |f.blk| && b !in g.logged ==> g.blk[b] == f.blk[b]
  }

  lemma FrameThen(f: Fs, h: Fs, g: Fs)
    requires Frame(f, h) && Frame(h, g)
    ensures Frame(f, g)
  {
  }

  lemma SetFrame(f: Fs, b: nat, x: Block)
    requires b < |f.blk|
    ensures Frame(f, SetBlock(f, b, x))
  {
  }

  lemma AllocateFrame(f: Fs, b: nat)
    requires Shape(f) && b < f.sb.size
    ensures Frame(f, Allocate(f, b))
  {
    hide SetBlock, Frame;
    BitmapInside(f.sb, b);
    var bb := f.sb.BBlock(b);
    SetFrame(f, bb, SetBit(f.blk[bb], b % BPB));
    SetFrame(Mark(f, b), b, Zero());
    FrameThen(f, Mark(f, b), Allocate(f, b));
  }

  lemma AttachFrame(f: Fs, i: nat, k: nat, b: Word)
    requires Shape(f) && i < f.sb.ninodes && k < SLOTS && (k > INDIRECT ==> f.tab[i].addrs[INDIRECT] < f.sb.size)
    ensures Frame(f, Attach(f, i, k, b))
  {
    hide SetWord;
  }

  lemma FillFrames(f: Fs, i: nat, k: nat)
    requires Fill.requires(f, i, k) && Fill(f, i, k).Some?
    ensures Frame(f, Fill(f, i, k).value)
  {
    hide Ref, Used, Allocate, Attach, Frame;
    FrameNone(f);
    var b := FirstFree(f, 0);
    if Ref(f, i, k) == 0 {
      AllocateFrame(f, b);
      AttachFrame(Allocate(f, b), i, k, b);
      FrameThen(f, Allocate(f, b), Attach(Allocate(f, b), i, k, b));
    }
  }

  lemma FrameNone(f: Fs)
    ensures Frame(f, f)
  {
  }

  lemma BmapFrames(f: Fs, i: nat, bn: nat)
    requires Shape(f) && i < f.sb.ninodes && Bmap(f, i, bn).Some?
    ensures Frame(f, Bmap(f, i, bn).value)
  {
    hide Fill, Frame;
    if bn < NDIRECT {
      FillFrames(f, i, bn);
    } else {
      FillFrames(f, i, INDIRECT);
      var g := Fill(f, i, INDIRECT).value;
      FillFrames(g, i, bn + 1);
      FrameThen(f, g, Fill(g, i, bn + 1).value);
    }
  }

  lemma {:induction false} WriteAllFrames(f: Fs, i: nat, off: nat, src: seq<Byte>)
    requires Shape(f) && i < f.sb.ninodes && WriteAll(f, i, off, src).Some?
    ensures Frame(f, WriteAll(f, i, off, src).value)
    decreases |src|
  {
    hide Bmap, Ref, Frame, SetBlock;
    FrameNone(f);
    if src != [] {
      var m, bn := Chunk(off, |src|), off / BSIZE;
      BmapFrames(f, i, bn);
      var h := Bmap(f, i, bn).value;
      var r := Ref(h, i, SlotOf(bn));
      SetFrame(h, r, h.blk[r][..off % BSIZE] + src[..m] + h.blk[r][off % BSIZE + m..]);
      var c := WriteChunk(f, i, off, src).value;
      FrameThen(f, h, c);
      WriteAllFrames(c, i, off + m, src[m..]);
      FrameThen(f, c, WriteAll(f, i, off, src).value);
    }
  }

  /** writei changes no block that it does not log. */
  lemma WriteiFrames(f: Fs, i: nat, off: Word, src: seq<Byte>)
    requires Shape(f) && i < f.sb.ninodes && Writei(f, i, off, src).Some?
    ensures Frame(f, Writei(f, i, off, src).value.0)
  {
    hide WriteAll, Frame, SetBlock, PutWords;
    FrameNone(f);
    if Writei(f, i, off, src).value.1 >= 0 {
      WriteAllFrames(f, i, off, src);
      var g := WriteAll(f, i, off, src).value;
      if |src| > 0 && off + |src| > g.tab[i].size {
        var h := Resize(g, i, off + |src|);
        InodeInside(h.sb, i);
        SameFrame(f, g, h);
        SetFrame(h, h.sb.IBlock(i), PutWords(h.blk[h.sb.IBlock(i)], 16 * (i % IPB), InodeWords(h.tab[i])));
        FrameThen(f, h, Iupdate(h, i));
      }
    }
  }

  lemma SameFrame(f: Fs, g: Fs, h: Fs)
    requires Frame(f, g) && h.blk == g.blk && h.logged == g.logged
    ensures Frame(f, h)
  {
  }

  // ----- The logged blocks lie before the log -----

  /** There are blocks before the log for all that the write is missing. */
  ghost predicate Room(f: Fs, i: nat, off: nat, n: nat)
    requires Shape(f) && i < f.sb.ninodes
  {
    && f.sb.nlog <= f.sb.size && f.sb.DataStart() <= f.sb.LogStart() && RefsBelow(f, f.sb.LogStart())
    && |Missing(f, i, off, n)| <= |FreeBelow(f, f.sb.LogStart())|
  }

  lemma RefsSame(f: Fs, g: Fs, n: nat)
    requires Shape(f) && Shape(g) && g.sb == f.sb && RefsBelow(f, n)
    requires forall j, l :: 0 <= j < f.sb.ninodes && 0 <= l < SLOTS ==> Ref(g, j, l) == Ref(f, j, l)
    ensures RefsBelow(g, n)
  {
    hide Ref;
  }

  /** With such room writei logs no block of the log, and no file gets one. */
  lemma WriteiBelow(f: Fs, owner: map<nat, Slot>, i: nat, off: Word, src: seq<Byte>)
    requires Owned(f, owner) && i < f.sb.ninodes && f.logged == {} && Room(f, i, off, |src|)
    ensures Writei(f, i, off, src).Some?
    ensures var g := Writei(f, i, off, src).value.0;
            RefsBelow(g, f.sb.LogStart()) && forall s :: s in g.logged ==> s < f.sb.LogStart()
  {
    hide WriteAll, Owned, Missing, FreeBelow, RefsBelow, Ref, Iupdate, Extends, Spliced, SamePeeks;
    OwnedShape(f, owner);
    var n := f.sb.LogStart();
    if off <= f.tab[i].size && off + |src| <= MAXFILE * BSIZE {
      WriteAllRoom(f, owner, i, off, src, n);
      var o1 := WriteAllSplices(f, owner, i, off, src);
      var g := WriteAll(f, i, off, src).value;
      NowOwned(f, owner, g, o1, i);
      LogsBelow(f, owner, g, i, off, src);
      if |src| > 0 && off + |src| > g.tab[i].size {
        var h := Resize(g, i, off + |src|);
        ResizeSame(g, o1, i, off + |src|);
        IupdateOwned(h, o1, i);
        RefsSame(g, h, n);
        RefsSame(h, Iupdate(h, i), n);
        InodeLogged(h, i);
      }
    }
  }

  lemma InodeLogged(f: Fs, i: nat)
    requires Shape(f) && i < f.sb.ninodes
    ensures Iupdate(f, i).logged == f.logged + {f.sb.IBlock(i)} && f.sb.IBlock(i) < f.sb.DataStart()
  {
    hide PutWords;
    InodeInside(f.sb, i);
  }

  lemma LogsBelow(f: Fs, owner: map<nat, Slot>, g: Fs, i: nat, off: nat, src: seq<Byte>)
    requires Owned(f, owner) && i < f.sb.ninodes && f.logged == {} && WriteAll(f, i, off, src) == Some(g)
    requires f.sb.DataStart() <= f.sb.LogStart() && RefsBelow(g, f.sb.LogStart())
    ensures forall s :: s in g.logged ==> s < f.sb.LogStart()
  {
    hide WriteAll, Owned, Ref, Touched;
    OwnedShape(f, owner);
    WriteAllLogs(f, owner, i, off, src);
  }

  /** writei does not touch the superblock. */
  lemma WriteiSuper(f: Fs, owner: map<nat, Slot>, i: nat, off: Word, src: seq<Byte>)
    requires Owned(f, owner) && i < f.sb.ninodes && 1 !in f.logged && Writei(f, i, off, src).Some?
    ensures var g := Writei(f, i, off, src).value.0; 1 !in g.logged && f.sb.size > 1 && g.blk[1] == f.blk[1]
  {
    hide WriteAll, Owned, Ref, Iupdate, Extends, Spliced, Touched;
    OwnedShape(f, owner);
    WriteiFrames(f, i, off, src);
    if Writei(f, i, off, src).value.1 >= 0 {
      var o1 := WriteAllSplices(f, owner, i, off, src);
      var g := WriteAll(f, i, off, src).value;
      NowOwned(f, owner, g, o1, i);
      WriteAllLogs(f, owner, i, off, src);
      RefsAbove(g, o1);
      InodeLogged(Resize(g, i, off + |src|), i);
    }
  }

  /** No slot has a block of the file system's own. */
  lemma RefsAbove(f: Fs, owner: map<nat, Slot>)
    requires Owned(f, owner)
    ensures Shape(f) && forall j, l :: 0 <= j < f.sb.ninodes && 0 <= l < SLOTS ==> Ref(f, j, l) == 0 || Ref(f, j, l) >= f.sb.DataStart()
  {
    hide Ref, Used;
    forall j, l | 0 <= j < f.sb.ninodes && 0 <= l < SLOTS && Ref(f, j, l) != 0 ensures Ref(f, j, l) >= f.sb.DataStart() {
      var r := Ref(f, j, l);
      assert r in owner;
      assert OwnedBlock(f, owner[r], r);
    }
  }

  // ----- The transaction -----

  /** These log_write calls turn the blocks of f into those of g and log the same sectors. */
  ghost predicate Writes(f: Fs, g: Fs, us: seq<Recovery.Write>) {
    Recovery.InRange(us, |f.blk|) && Recovery.Sectors(us) == g.logged && Recovery.Apply(f.blk, us) == g.blk
  }

  lemma NoWrites(f: Fs)
    ensures Recovery.Sectors([]) == {} && Recovery.Apply(f.blk, []) == f.blk
  {
  }

  lemma WritesNext(f: Fs, us: seq<Recovery.Write>, d: seq<Block>, u: Recovery.Write)
    requires Recovery.InRange(us, |f.blk|) && Recovery.Apply(f.blk, us) == d && |d| == |f.blk| && u.sector < |d|
    ensures Recovery.InRange(us + [u], |f.blk|) && Recovery.Apply(f.blk, us + [u]) == d[u.sector := u.data]
    ensures Recovery.Sectors(us + [u]) == Recovery.Sectors(us) + {u.sector}
  {
    hide Recovery.Apply, Recovery.Sectors;
    Recovery.SectorsNext(us, u);
    Recovery.ApplyConcat(f.blk, us, [u]);
    Recovery.ApplyOne(d, u);
  }

  /** There always are such calls. */
  lemma WritesExist(f: Fs, g: Fs) returns (us: seq<Recovery.Write>)
    requires Frame(f, g) && f.logged == {}
    ensures Writes(f, g, us)
  {
    hide Recovery.Apply, Recovery.Sectors;
    us := [];
    var d, left := f.blk, g.logged;
    NoWrites(f);
    while left != {}
      invariant left <= g.logged && Recovery.InRange(us, |f.blk|) && Recovery.Sectors(us) == g.logged - left
      invariant Recovery.Apply(f.blk, us) == d && |d| == |f.blk| == |g.blk|
      invariant forall b :: 0 <= b < |d| && b !in left ==> d[b] == g.blk[b]
      decreases left
    {
      var b :| b in left;
      var u := Recovery.Write(b, g.blk[b]);
      WritesNext(f, us, d, u);
      us, d, left := us + [u], d[b := g.blk[b]], left - {b};
    }
    assert d == g.blk;
  }

  lemma {:induction false} ApplyBelow(d: seq<Block>, us: seq<Recovery.Write>, n: nat)
    requires n <= |d| && Recovery.InRange(us, n)
    ensures Recovery.Apply(d, us)[..n] == Recovery.Apply(d[..n], us)
  {
    if us != [] {
      var m := |us| - 1;
      var u := us[m];
      assert us == us[..m] + [u];
      ApplyBelow(d, us[..m], n);
      Recovery.ApplyConcat(d, us[..m], [u]);
      Recovery.ApplyConcat(d[..n], us[..m], [u]);
      Recovery.ApplyOne(Recovery.Apply(d, us[..m]), u);
      Recovery.ApplyOne(Recovery.Apply(d[..n], us[..m]), u);
    }
  }

  lemma SectorsRange(us: seq<Recovery.Write>, n: nat)
    requires forall s :: s in Recovery.Sectors(us) ==> s < n
    ensures Recovery.InRange(us, n)
  {
    forall u | u in us ensures u.sector < n {
      assert u.sector in Recovery.Sectors(us);
    }
  }

  /** log_write does not panic in a transaction of filewrite on a log of more than seven
      slots. */
  lemma TransactionFits(f: Fs, owner: map<nat, Slot>, i: nat, off: Word, src: seq<Byte>, us: seq<Recovery.Write>)
    requires Owned(f, owner) && i < f.sb.ninodes && f.sb.size < BPB && f.logged == {} && |src| <= MAXWRITE
    requires Room(f, i, off, |src|) && f.sb.nlog > 8
    requires Writei(f, i, off, src).Some? && Recovery.Sectors(us) == Writei(f, i, off, src).value.0.logged
    ensures Recovery.Updates(LogOf(f.sb), us) && Recovery.LogAll(LogOf(f.sb), us).ok
  {
    hide Owned, Writei, Room, Recovery.LogAll, Recovery.Sectors, RefsBelow;
    OwnedShape(f, owner);
    TransactionBound(f, owner, i, off, src);
    WriteiBelow(f, owner, i, off, src);
    SectorsRange(us, f.sb.LogStart());
    Recovery.LogAllFits(LogOf(f.sb), us);
    if us != [] {
      Recovery.SectorsNext(us[..|us| - 1], us[|us| - 1]);
      assert us == us[..|us| - 1] + [us[|us| - 1]];
      SubsetSize(Recovery.Sectors(us[..|us| - 1]), Recovery.Sectors(us));
    }
  }

  /** A chunk of filewrite cut off after any of its sector writes: what recovery makes of
      the disk is the file system before the chunk or after it, and after it if it came
      to its end, when the next chunk can begin. */
  lemma ChunkAtomic(f: Fs, owner: map<nat, Slot>, i: nat, off: Word, src: seq<Byte>, us: seq<Recovery.Write>, d: seq<Block>, stop: nat)
    requires Owned(f, owner) && i < f.sb.ninodes && f.sb.size < BPB && f.logged == {} && |src| <= MAXWRITE
    requires Room(f, i, off, |src|) && f.sb.nlog > 8 && Writei(f, i, off, src).Some? && Writes(f, Writei(f, i, off, src).value.0, us)
    requires Recovery.Clean(LogOf(f.sb), d) && Recovery.Home(LogOf(f.sb), d) == f.blk[..f.sb.LogStart()]
    ensures var g, n := Writei(f, i, off, src).value.0, f.sb.LogStart();
            var ev := Recovery.Event(Recovery.Transaction(us), stop);
            && Recovery.Updates(LogOf(f.sb), us) && Recovery.WellFormed(LogOf(f.sb), d)
            && var e := Recovery.Reached(LogOf(f.sb), d, ev);
               && Recovery.WellFormed(LogOf(f.sb), e)
               && Recovery.Meaning(LogOf(f.sb), e) == (if Recovery.Commits(LogOf(f.sb), ev) then g.blk[..n] else f.blk[..n])
               && (Recovery.Finished(LogOf(f.sb), d, ev) ==>
                     Recovery.Clean(LogOf(f.sb), e) && Recovery.Meaning(LogOf(f.sb), e) == g.blk[..n])
               && g.blk[n..] == f.blk[n..] && RefsBelow(g, n)
  {
    hide Owned, Writei, Room, RefsBelow, Recovery.LogAll, Recovery.Meaning, Recovery.Apply, Recovery.Reached;
    OwnedShape(f, owner);
    var g, n, log := Writei(f, i, off, src).value.0, f.sb.LogStart(), LogOf(f.sb);
    TransactionFits(f, owner, i, off, src, us);
    WriteiBelow(f, owner, i, off, src);
    WriteiFrames(f, i, off, src);
    assert g.blk[n..] == f.blk[n..];
    var ev := Recovery.Event(Recovery.Transaction(us), stop);
    Recovery.TransactionEvent(log, d, ev);
    ApplyBelow(f.blk, us, n);
    FinishedCommits(log, d, us, stop);
  }

  /** A transaction that comes to its end has committed, or had nothing to write. */
  lemma FinishedCommits(g: Recovery.Geometry, d: seq<Block>, us: seq<Recovery.Write>, stop: nat)
    requires Recovery.WellFormed(g, d) && Recovery.Updates(g, us) && Recovery.Clean(g, d)
    ensures var ev := Recovery.Event(Recovery.Transaction(us), stop);
            Recovery.Finished(g, d, ev) ==> Recovery.Commits(g, ev) || us == []
  {
    if Recovery.LogAll(g, us).ok && us != [] {
      Recovery.LoggedSomething(g, us);
    }
  }
}
