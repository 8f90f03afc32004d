/** A whole filewrite, cut off anywhere: after recovery and a new boot the file has the bytes
    of its first chunks, and every other file is as it was. */
module FileCrash {
  import opened Blocks
  import opened Counting
  import opened Options
  import opened FileSystem
  import opened FileBytes
  import opened FileMaps
  import opened FileRoom
  import opened FileWrite
  import opened FileHistory
  import opened FileLog
  import Recovery

  // ----- One chunk, and what it leaves for the next -----

  /** Nothing but the log has to do with `logged`. */
  lemma BeginKeeps(f: Fs, owner: map<nat, Slot>, i: nat, off: nat, n: nat)
    requires Sound(f, owner) && Exact(f) && i < f.sb.ninodes && Room(f, i, off, n)
    ensures Sound(Begin(f), owner) && Exact(Begin(f)) && Room(Begin(f), i, off, n) && Contents(Begin(f)) == Contents(f)
  {
    var g := Begin(f);
    BeginSame(f, owner);
    hide Owned, Ref, Peek, Used, NeededBy, Touched;
    OwnedShape(f, owner);
    forall j | 0 <= j < f.sb.ninodes ensures Mapped(g, j) && Synced(g, j) && Bytes(g, j) == Bytes(f, j) {
      assert Mapped(f, j) && Synced(f, j);
      SameDinode(f, g, j);
    }
    forall b | 0 <= b < f.sb.size ensures Used(g, b) == Used(f, b) {
      BitmapInside(f.sb, b);
      SameUse(f, g, b);
    }
    assert FreeBelow(g, f.sb.LogStart()) == FreeBelow(f, f.sb.LogStart());
    assert Missing(g, i, off, n) == Missing(f, i, off, n);
    assert Contents(g) == Contents(f);
  }

  lemma SameUse(f: Fs, g: Fs, b: nat)
    requires Shape(f) && Shape(g) && g.sb == f.sb && b < f.sb.size && g.blk[f.sb.BBlock(b)] == f.blk[f.sb.BBlock(b)]
    ensures f.sb.BBlock(b) < f.sb.size && Used(g, b) == Used(f, b)
  {
    BitmapInside(f.sb, b);
  }

  /** The room that is left: writei took what it was missing. */
  lemma RoomNext(f: Fs, owner: map<nat, Slot>, i: nat, off: Word, src: seq<Byte>, rest: nat)
    requires Owned(f, owner) && i < f.sb.ninodes && f.logged == {} && Room(f, i, off, |src| + rest)
    requires Writei(f, i, off, src).Some? && Writei(f, i, off, src).value.1 >= 0
    ensures Room(f, i, off, |src|) && Room(Writei(f, i, off, src).value.0, i, off + |src|, rest)
  {
    hide Owned, WriteAll, Iupdate, Ref, Touched, FreeBelow, Missing, RefsBelow, Extends, Spliced;
    OwnedShape(f, owner);
    var n := f.sb.LogStart();
    MissingLess(f, i, off, |src|, rest);
    WriteiBelow(f, owner, i, off, src);
    WriteAllRoom(f, owner, i, off, src, n);
    var g, h := WriteAll(f, i, off, src).value, Writei(f, i, off, src).value.0;
    var o1 := WriteAllSplices(f, owner, i, off, src);
    NowOwned(f, owner, g, o1, i);
    UpdateSame(g, o1, h, i, off, src);
    forall l | 0 <= l < SLOTS ensures if Touched(off, |src|, l) then Ref(h, i, l) != 0 else Ref(h, i, l) == Ref(f, i, l) {
      WriteAllRef(f, owner, i, off, src, i, l);
    }
    MissingRest(f, h, i, off, |src|, rest);
    FreeSame(g, h, n);
  }

  lemma MissingLess(f: Fs, i: nat, off: nat, a: nat, b: nat)
    requires Shape(f) && i < f.sb.ninodes
    ensures |Missing(f, i, off, a)| <= |Missing(f, i, off, a + b)|
  {
    hide Ref, Touched;
    forall l | l in Missing(f, i, off, a) ensures l in Missing(f, i, off, a + b) {
      TouchedPlus(off, a, b, l);
    }
    SubsetSize(Missing(f, i, off, a), Missing(f, i, off, a + b));
  }

  /** The end of writei leaves slots and bitmap alone. */
  lemma UpdateSame(g: Fs, owner: map<nat, Slot>, h: Fs, i: nat, off: nat, src: seq<Byte>)
    requires Owned(g, owner) && i < g.sb.ninodes && off + |src| < 0x1_0000_0000
    requires h == g || h == Iupdate(Resize(g, i, off + |src|), i)
    ensures Shape(g) && Shape(h) && h.sb == g.sb
    ensures forall j, l :: 0 <= j < g.sb.ninodes && 0 <= l < SLOTS ==> Ref(h, j, l) == Ref(g, j, l)
    ensures forall b :: 0 <= b < g.sb.size ==> (Used(h, b) <==> Used(g, b))
  {
    hide Owned, Ref, Iupdate, SamePeeks;
    OwnedShape(g, owner);
    if h != g {
      var r := Resize(g, i, off + |src|);
      ResizeSame(g, owner, i, off + |src|);
      IupdateOwned(r, owner, i);
      forall b | 0 <= b < g.sb.size ensures Used(h, b) <==> Used(g, b) {
        BitmapInside(g.sb, b);
        IupdateElsewhere(r, i, g.sb.BBlock(b));
      }
    }
  }

  lemma FreeSame(g: Fs, h: Fs, n: nat)
    requires Shape(g) && Shape(h) && h.sb == g.sb && n <= g.sb.size
    requires forall b :: 0 <= b < g.sb.size ==> (Used(h, b) <==> Used(g, b))
    ensures FreeBelow(h, n) == FreeBelow(g, n)
  {
    hide Used;
  }

  // ----- A new boot -----

  /** Blocks before the log are all that files are made of. */
  lemma MountSame(f: Fs, owner: map<nat, Slot>, blk: seq<Block>, n: nat)
    requires Sound(f, owner) && Exact(f) && RefsBelow(f, n) && f.sb.DataStart() <= n <= f.sb.size
    requires |blk| == f.sb.size && blk[..n] == f.blk[..n]
    ensures var g := Mount(f.sb, blk); Sound(g, owner) && Exact(g) && Contents(g) == Contents(f)
  {
    hide Mount, Ref, Used, Peek, Dinode, NeededBy, RefsBelow;
    OwnedShape(f, owner);
    var g := Mount(f.sb, blk);
    forall b | 0 <= b < n ensures g.blk[b] == f.blk[b] {
      assert blk[..n][b] == f.blk[..n][b];
    }
    MountInodes(f, g);
    MountRefs(f, g, n);
    MountOwned(f, owner, g);
    MountPeeks(f, g, n);
    forall j | 0 <= j < f.sb.ninodes ensures Mapped(g, j) && Bytes(g, j) == Bytes(f, j) {
      assert Mapped(f, j);
    }
    assert Contents(g) == Contents(f);
  }

  lemma MountRefs(f: Fs, g: Fs, n: nat)
    requires Shape(f) && Shape(g) && g.sb == f.sb && g.tab == f.tab && RefsBelow(f, n) && n <= f.sb.size
    requires forall b :: 0 <= b < n ==> g.blk[b] == f.blk[b]
    ensures forall j, l :: 0 <= j < f.sb.ninodes && 0 <= l < SLOTS ==> Ref(g, j, l) == Ref(f, j, l)
  {
    hide GetWord;
    forall j, l | 0 <= j < f.sb.ninodes && 0 <= l < SLOTS ensures Ref(g, j, l) == Ref(f, j, l) {
      assert Ref(f, j, INDIRECT) < n;
    }
  }

  lemma MountPeeks(f: Fs, g: Fs, n: nat)
    requires Shape(f) && Shape(g) && g.sb == f.sb && RefsBelow(f, n) && n <= f.sb.size
    requires forall b :: 0 <= b < n ==> g.blk[b] == f.blk[b]
    requires forall j, l :: 0 <= j < f.sb.ninodes && 0 <= l < SLOTS ==> Ref(g, j, l) == Ref(f, j, l)
    ensures SamePeeks(f, g)
  {
    hide Ref;
    forall j, o | 0 <= j < f.sb.ninodes && 0 <= o < MAXFILE * BSIZE ensures Peek(g, j, o) == Peek(f, j, o) {
      assert Ref(f, j, SlotOf(o / BSIZE)) < n;
    }
  }

  lemma MountOwned(f: Fs, owner: map<nat, Slot>, g: Fs)
    requires Owned(f, owner) && Shape(g) && g.sb == f.sb
    requires forall b :: 0 <= b < f.sb.DataStart() ==> g.blk[b] == f.blk[b]
    requires forall j, l :: 0 <= j < f.sb.ninodes && 0 <= l < SLOTS ==> Ref(g, j, l) == Ref(f, j, l)
    ensures Owned(g, owner)
  {
    hide Ref, Used;
    forall b | 0 <= b < f.sb.size ensures Used(g, b) == Used(f, b) {
      BitmapInside(f.sb, b);
      SameUse(f, g, b);
    }
    forall b | b in owner ensures OwnedBlock(g, owner[b], b) {
      assert OwnedBlock(f, owner[b], b);
    }
  }

  lemma MountInodes(f: Fs, g: Fs)
    requires Shape(f) && Exact(f) && |g.blk| == f.sb.size && g == Mount(f.sb, g.blk)
    requires forall b :: 0 <= b < f.sb.DataStart() ==> g.blk[b] == f.blk[b]
    ensures g.tab == f.tab && forall j :: 0 <= j < f.sb.ninodes ==> Synced(g, j)
  {
    hide Mapped;
    var bare := Fs(f.sb, g.blk, seq(f.sb.ninodes, _ => ZeroInode()), {});
    forall j | 0 <= j < f.sb.ninodes ensures g.tab[j] == f.tab[j] && Synced(g, j) {
      assert Synced(f, j);
      InodeInside(f.sb, j);
      SameDinode(f, bare, j);
      SameDinode(f, g, j);
    }
  }

  // ----- The whole write -----

  /** How many of n bytes the first k chunks have. */
  function ChunkBytes(k: nat, n: nat): nat {
    Min(n, k * MAXWRITE)
  }

  lemma ChunkBytesNext(k: nat, n: nat)
    ensures var n1 := Min(n, MAXWRITE); ChunkBytes(k + 1, n) == n1 + ChunkBytes(k, n - n1)
  {
  }

  /** The events of run are the transactions of the first chunks of the write, the log_write
      calls of each in any order. */
  ghost predicate Chunks(f: Fs, i: nat, off: Word, src: seq<Byte>, run: seq<Recovery.Event>)
    requires Shape(f) && i < f.sb.ninodes
    decreases |run|
  {
    run == [] ||
    (var n1 := Min(|src|, MAXWRITE);
     var w := Writei(Begin(f), i, off, src[..n1]);
     && src != [] && w.Some? && w.value.1 >= 0 && run[0].what.Transaction?
     && Writes(Begin(f), w.value.0, run[0].what.updates)
     && Chunks(w.value.0, i, off + n1, src[n1..], run[1..]))
  }

  /** The table with these bytes in file i at off. */
  function Written(c: seq<seq<Byte>>, i: nat, off: nat, bytes: seq<Byte>): seq<seq<Byte>>
    requires i < |c|
  {
    if off <= |c[i]| then c[i := Splice(c[i], off, bytes)] else c
  }

  lemma WrittenNone(c: seq<seq<Byte>>, i: nat, off: nat)
    requires i < |c|
    ensures Written(c, i, off, []) == c
  {
    if off <= |c[i]| {
      assert Splice(c[i], off, []) == c[i];
    }
  }

  lemma WrittenTwice(c: seq<seq<Byte>>, i: nat, off: nat, a: seq<Byte>, b: seq<Byte>)
    requires i < |c| && off <= |c[i]|
    ensures Written(Written(c, i, off, a), i, off + |a|, b) == Written(c, i, off, a + b)
  {
    SpliceTwice(c[i], off, a, b);
  }

  /** A chunk that was not refused. */
  lemma ChunkDone(f: Fs, owner: map<nat, Slot>, i: nat, off: Word, src: seq<Byte>, rest: nat) returns (owner': map<nat, Slot>)
    requires Sound(f, owner) && Exact(f) && i < f.sb.ninodes && f.logged == {} && Room(f, i, off, |src| + rest)
    requires Writei(f, i, off, src).Some? && Writei(f, i, off, src).value.1 >= 0
    ensures var g := Writei(f, i, off, src).value.0;
            && Sound(g, owner') && Exact(g) && Room(g, i, off + |src|, rest) && Room(f, i, off, |src|)
            && Contents(g) == Written(Contents(f), i, off, src) && off <= |Contents(f)[i]|
  {
    hide Exact, Writei, Room, Owned, Splice;
    SoundShape(f, owner);
    owner' := WriteRefines(f, owner, i, off, src);
    WriteExact(f, owner, i, off, src);
    RoomNext(f, owner, i, off, src, rest);
  }

  /** The disk e recovers and boots, by the superblock it has, with the file system in order
      and these files. */
  ghost predicate Boots(sb: Super, e: seq<Block>, owner: map<nat, Slot>, c: seq<seq<Byte>>)
    requires sb.size <= 0x1_0000_0000 && sb.DataStart() <= sb.size
  {
    && |e| == sb.size > 1 && Readsb(e[1]) == sb && Recovery.WellFormed(LogOf(Readsb(e[1])), e)
    && var r := Recovery.Recovered(LogOf(Readsb(e[1])), e);
       && |r| == sb.size && Readsb(r[1]) == sb
       && var g := Mount(Readsb(r[1]), r); Sound(g, owner) && Exact(g) && Contents(g) == c
  }

  /** So does a disk that stands for the blocks of f. */
  lemma Reboot(f: Fs, owner: map<nat, Slot>, e: seq<Block>)
    requires Sound(f, owner) && Exact(f) && f.sb.nlog <= f.sb.size && f.sb.DataStart() <= f.sb.LogStart()
    requires RefsBelow(f, f.sb.LogStart()) && Recovery.WellFormed(LogOf(f.sb), e)
    requires Recovery.Meaning(LogOf(f.sb), e) == f.blk[..f.sb.LogStart()]
    requires f.sb.size > 1 && |e| > 1 && Readsb(f.blk[1]) == f.sb && e[1] == f.blk[1]
    ensures Boots(f.sb, e, owner, Contents(f))
  {
    hide Exact, RefsBelow, Owned, Contents, Recovery.RecoveryWrites, Mount;
    OwnedShape(f, owner);
    var r := Recovery.Recovered(LogOf(f.sb), e);
    assert r[..f.sb.LogStart()][1] == r[1] && f.blk[..f.sb.LogStart()][1] == f.blk[1];
    MountSame(f, owner, r, f.sb.LogStart());
  }

  ghost predicate Committed(sb: Super, ev: Recovery.Event) {
    Recovery.LegalActivity(LogOf(sb), ev.what) && Recovery.Commits(LogOf(sb), ev)
  }

  /** How many chunks of a run came to their commit point: all, or all but the last. */
  ghost function Chunked(sb: Super, run: seq<Recovery.Event>): nat {
    if run == [] then 0 else if Committed(sb, run[|run| - 1]) then |run| else |run| - 1
  }

  /** The file system f and the disk d before a write. */
  ghost predicate Ready(f: Fs, owner: map<nat, Slot>, i: nat, off: nat, n: nat, d: seq<Block>) {
    && Sound(f, owner) && Exact(f) && i < f.sb.ninodes && f.sb.size < BPB && f.sb.nlog > 8 && Room(f, i, off, n)
    && Recovery.Clean(LogOf(f.sb), d) && Recovery.WellFormed(LogOf(f.sb), d)
    && Recovery.Home(LogOf(f.sb), d) == f.blk[..f.sb.LogStart()] && f.sb.size > 1 && Readsb(f.blk[1]) == f.sb
  }

  lemma ReadyShape(f: Fs, owner: map<nat, Slot>, i: nat, off: nat, n: nat, d: seq<Block>)
    requires Ready(f, owner, i, off, n, d)
    ensures Shape(f) && SizesOk(f) && i < f.sb.ninodes && Recovery.Clean(LogOf(f.sb), d) && Recovery.WellFormed(LogOf(f.sb), d)
  {
  }

  lemma RebootNow(f: Fs, owner: map<nat, Slot>, i: nat, off: nat, n: nat, d: seq<Block>)
    requires Ready(f, owner, i, off, n, d)
    ensures Shape(f) && SizesOk(f) && Boots(f.sb, d, owner, Contents(f))
  {
    hide Exact, Boots, Recovery.Meaning, RefsBelow, Missing, FreeBelow;
    Recovery.CleanMeaning(LogOf(f.sb), d);
    Reboot(f, owner, d);
  }

  /** The superblock is the same on disk all the while, and in the blocks afterwards. */
  lemma SuperStays(f: Fs, owner: map<nat, Slot>, i: nat, off: Word, src: seq<Byte>, us: seq<Recovery.Write>, d: seq<Block>, stop: nat)
    requires Owned(f, owner) && i < f.sb.ninodes && f.logged == {} && f.sb.DataStart() <= f.sb.LogStart() && f.sb.nlog <= f.sb.size
    requires Writei(f, i, off, src).Some? && Writes(f, Writei(f, i, off, src).value.0, us) && Recovery.Updates(LogOf(f.sb), us)
    requires Recovery.WellFormed(LogOf(f.sb), d) && Recovery.Home(LogOf(f.sb), d) == f.blk[..f.sb.LogStart()]
    ensures var e := Recovery.Reached(LogOf(f.sb), d, Recovery.Event(Recovery.Transaction(us), stop));
            |e| == |d| > 1 && f.sb.size > 1 && e[1] == f.blk[1] && Writei(f, i, off, src).value.0.blk[1] == f.blk[1]
  {
    hide Owned, Writei, Recovery.Reached, Recovery.Sectors;
    OwnedShape(f, owner);
    WriteiSuper(f, owner, i, off, src);
    Recovery.ReachedElsewhere(LogOf(f.sb), d, us, stop, 1);
    assert d[..f.sb.LogStart()][1] == d[1] && f.blk[..f.sb.LogStart()][1] == f.blk[1];
  }

  /** One chunk of the write: cut off, the disk boots with the files before it or after it
      if it had committed; finished, all is ready for the next. */
  lemma ChunkCrash(f: Fs, owner: map<nat, Slot>, i: nat, off: Word, src: seq<Byte>, rest: nat, ev: Recovery.Event, d: seq<Block>)
    returns (owner': map<nat, Slot>)
    requires Ready(f, owner, i, off, |src| + rest, d) && |src| <= MAXWRITE && ev.what.Transaction?
    requires var w := Writei(Begin(f), i, off, src); w.Some? && w.value.1 >= 0 && Writes(Begin(f), w.value.0, ev.what.updates)
    ensures var g := Writei(Begin(f), i, off, src).value.0;
            && Shape(f) && SizesOk(f) && off <= |Contents(f)[i]| && Sound(g, owner') && Contents(g) == Written(Contents(f), i, off, src)
            && Recovery.LegalActivity(LogOf(f.sb), ev.what)
            && Boots(f.sb, Recovery.Reached(LogOf(f.sb), d, ev), if Committed(f.sb, ev) then owner' else owner,
                     if Committed(f.sb, ev) then Contents(g) else Contents(f))
            && (Recovery.Finished(LogOf(f.sb), d, ev) ==>
                  Ready(g, owner', i, off + |src|, rest, Recovery.Reached(LogOf(f.sb), d, ev)))
  {
    hide Exact, Writei, Writes, Written, Boots, Contents, Owned, Missing, FreeBelow, RefsBelow;
    hide Recovery.Meaning, Recovery.Reached, Recovery.Finished, Recovery.WellFormed, Recovery.Commits;
    OwnedShape(f, owner);
    var f1, log := Begin(f), LogOf(f.sb);
    BeginKeeps(f, owner, i, off, |src| + rest);
    owner' := ChunkDone(f1, owner, i, off, src, rest);
    var g := Writei(f1, i, off, src).value.0;
    ChunkAtomic(f1, owner, i, off, src, ev.what.updates, d, ev.stop);
    assert ev == Recovery.Event(Recovery.Transaction(ev.what.updates), ev.stop);
    var e := Recovery.Reached(log, d, ev);
    SuperStays(f1, owner, i, off, src, ev.what.updates, d, ev.stop);
    if Committed(f.sb, ev) {
      Reboot(g, owner', e);
    } else {
      Reboot(f, owner, e);
    }
    if Recovery.Finished(log, d, ev) {
      Recovery.CleanMeaning(log, e);
    }
  }

  lemma NoRun(g: Recovery.Geometry, d: seq<Block>)
    requires Recovery.Clean(g, d) && Recovery.WellFormed(g, d)
    ensures Recovery.LegalRun(g, d, true, []) && Recovery.RunDisk(g, d, true, []) == d
  {
  }

  lemma ChunksHead(f: Fs, i: nat, off: Word, src: seq<Byte>, run: seq<Recovery.Event>)
    requires Shape(f) && i < f.sb.ninodes && Chunks(f, i, off, src, run) && run != []
    ensures var n1 := Min(|src|, MAXWRITE);
            var w := Writei(Begin(f), i, off, src[..n1]);
            && src != [] && w.Some? && w.value.1 >= 0 && run[0].what.Transaction? && off + n1 < 0x1_0000_0000
            && Writes(Begin(f), w.value.0, run[0].what.updates) && Chunks(w.value.0, i, off + n1, src[n1..], run[1..])
    ensures |run| > 1 ==> run[1].what.Transaction?
  {
    hide Writei, Writes;
    if |run| > 1 {
      assert run[1..][0] == run[1];
    }
  }

  /** The first event of a run and the others; one that is followed by a transaction came
      to its end. */
  lemma RunHead(g: Recovery.Geometry, d: seq<Block>, run: seq<Recovery.Event>)
    requires Recovery.Clean(g, d) && Recovery.WellFormed(g, d) && Recovery.LegalRun(g, d, true, run) && run != []
    requires Recovery.LegalActivity(g, run[0].what) && run[0].what.Transaction?
    ensures var e, done := Recovery.Reached(g, d, run[0]), Recovery.Finished(g, d, run[0]);
            && Recovery.WellFormed(g, e) && (done ==> Recovery.Clean(g, e))
            && Recovery.LegalRun(g, e, done, run[1..]) && Recovery.RunDisk(g, d, true, run) == Recovery.RunDisk(g, e, done, run[1..])
            && (|run| > 1 && run[1].what.Transaction? ==> done) && (|run| == 1 ==> Recovery.RunDisk(g, d, true, run) == e)
  {
    hide Recovery.Clean, Recovery.WellFormed, Recovery.Reached, Recovery.Finished;
    Recovery.TransactionEvent(g, d, run[0]);
    if |run| > 1 {
      assert run[1..][0] == run[1];
    }
  }

  /** A filewrite of any length, cut off after any of its sector writes, with any number of
      its chunks finished before: the disk recovers and boots with the file system in
      order, the bytes of the first chunks in the file, and every other file as it was. */
  lemma {:induction false} FilewriteCrash(f: Fs, owner: map<nat, Slot>, i: nat, off: Word, src: seq<Byte>, run: seq<Recovery.Event>,
                                          d: seq<Block>) returns (owner': map<nat, Slot>, m: nat)
    requires Shape(f) && SizesOk(f) && i < f.sb.ninodes && Recovery.Clean(LogOf(f.sb), d) && Recovery.WellFormed(LogOf(f.sb), d)
    requires Ready(f, owner, i, off, |src|, d) && Recovery.LegalRun(LogOf(f.sb), d, true, run) && Chunks(f, i, off, src, run)
    ensures m == ChunkBytes(Chunked(f.sb, run), |src|) <= |src|
    ensures Boots(f.sb, Recovery.RunDisk(LogOf(f.sb), d, true, run), owner', Written(Contents(f), i, off, src[..m]))
    decreases |run|
  {
    hide Ready, Writes, Writei, Contents, Written, Boots, Recovery.Clean, Recovery.WellFormed, Recovery.Reached, Recovery.Finished;
    hide Recovery.LegalRun, Recovery.RunDisk, Chunks;
    m, owner' := 0, owner;
    if run == [] {
      NoRun(LogOf(f.sb), d);
      RebootNow(f, owner, i, off, |src|, d);
      WrittenNone(Contents(f), i, off);
      assert src[..0] == [];
    } else {
      var n1 := Min(|src|, MAXWRITE);
      var ev := run[0];
      ChunksHead(f, i, off, src, run);
      var g := Writei(Begin(f), i, off, src[..n1]).value.0;
      var o1 := ChunkCrash(f, owner, i, off, src[..n1], |src| - n1, ev, d);
      RunHead(LogOf(f.sb), d, run);
      var e := Recovery.Reached(LogOf(f.sb), d, ev);
      if |run| == 1 {
        if Committed(f.sb, ev) {
          owner', m := o1, n1;
        } else {
          WrittenNone(Contents(f), i, off);
          assert src[..0] == [];
        }
      } else {
        ReadyShape(g, o1, i, off + n1, |src| - n1, e);
        owner', m := FilewriteCrash(g, o1, i, off + n1, src[n1..], run[1..], e);
        WrittenTwice(Contents(f), i, off, src[..n1], src[n1..][..m]);
        assert src[..n1] + src[n1..][..m] == src[..n1 + m];
        ChunkBytesNext(Chunked(f.sb, run[1..]), |src|);
        m := n1 + m;
      }
    }
  }

  /** The write's first chunk is refused. */
  predicate Refused(f: Fs, i: nat, off: nat, n: nat)
    requires Shape(f) && i < f.sb.ninodes
  {
    off > f.tab[i].size || off + Min(n, MAXWRITE) > MAXFILE * BSIZE
  }

  lemma ChunkWrites(f: Fs, owner: map<nat, Slot>, i: nat, off: Word, src: seq<Byte>, rest: nat, d: seq<Block>)
    returns (us: seq<Recovery.Write>)
    requires Shape(f) && Ready(f, owner, i, off, |src| + rest, d)
    requires off <= f.tab[i].size && off + |src| <= MAXFILE * BSIZE && |src| <= MAXWRITE
    ensures var w := Writei(Begin(f), i, off, src); w.Some? && w.value.1 >= 0 && Writes(Begin(f), w.value.0, us)
    ensures Recovery.Updates(LogOf(f.sb), us) && Recovery.LogAll(LogOf(f.sb), us).ok
  {
    hide Exact, Writei, Contents, Owned, Missing, FreeBelow, RefsBelow, Frame, Recovery.LogAll, Recovery.Apply, Recovery.Sectors;
    var f1 := Begin(f);
    BeginKeeps(f, owner, i, off, |src| + rest);
    MissingLess(f1, i, off, |src|, rest);
    WriteiBelow(f1, owner, i, off, src);
    WriteiSucceeds(f1, owner, i, off, src);
    WriteiFrames(f1, i, off, src);
    us := WritesExist(f1, Writei(f1, i, off, src).value.0);
    TransactionFits(f1, owner, i, off, src, us);
  }

  /** The sector writes of a run. */
  ghost function Made(g: Recovery.Geometry, d: seq<Block>, clean: bool, run: seq<Recovery.Event>): nat
    requires Recovery.WellFormed(g, d) && (clean ==> Recovery.Clean(g, d)) && Recovery.LegalRun(g, d, clean, run)
    decreases |run|
  {
    if run == [] then 0
    else
      var ev := run[0];
      assert Recovery.WellFormed(g, Recovery.Reached(g, d, ev))
             && (Recovery.Finished(g, d, ev) ==> Recovery.Clean(g, Recovery.Reached(g, d, ev))) by {
        if ev.what.Transaction? { Recovery.TransactionEvent(g, d, ev); } else { Recovery.RecoverEvent(g, d, ev); }
      }
      Min(ev.stop, |Recovery.ActivityTrace(g, d, ev.what)|) +
      Made(g, Recovery.Reached(g, d, ev), Recovery.Finished(g, d, ev), run[1..])
  }

  /** After the chunks of run nothing is left of the write, or writei refuses the next. */
  ghost predicate Complete(f: Fs, i: nat, off: Word, src: seq<Byte>, run: seq<Recovery.Event>)
    requires Shape(f) && i < f.sb.ninodes && Chunks(f, i, off, src, run)
    decreases |run|
  {
    if run == [] then src == [] || Refused(f, i, off, |src|)
    else
      var n1 := Min(|src|, MAXWRITE);
      Complete(Writei(Begin(f), i, off, src[..n1]).value.0, i, off + n1, src[n1..], run[1..])
  }

  lemma MadeNone(g: Recovery.Geometry, d: seq<Block>, clean: bool)
    requires Recovery.WellFormed(g, d) && (clean ==> Recovery.Clean(g, d))
    ensures Recovery.LegalRun(g, d, clean, []) && Made(g, d, clean, []) == 0 && g.Fits(d)
  {
  }

  /** A transaction and what comes after it. */
  lemma OneMore(g: Recovery.Geometry, d: seq<Block>, us: seq<Recovery.Write>, stop: nat, rest: seq<Recovery.Event>)
    requires Recovery.Clean(g, d) && Recovery.WellFormed(g, d) && Recovery.Updates(g, us) && Recovery.LogAll(g, us).ok
    ensures var ev, n := Recovery.Event(Recovery.Transaction(us), stop), |Recovery.TransactionTrace(g, d, us)|;
            var e := Recovery.Reached(g, d, ev);
            && Recovery.WellFormed(g, e) && (Recovery.Finished(g, d, ev) <==> stop >= n) && (stop >= n ==> Recovery.Clean(g, e))
            && (Recovery.LegalRun(g, e, stop >= n, rest) ==>
                  && Recovery.LegalRun(g, d, true, [ev] + rest)
                  && Made(g, d, true, [ev] + rest) == Min(stop, n) + Made(g, e, stop >= n, rest))
  {
    hide Recovery.Clean, Recovery.WellFormed, Recovery.Reached, Recovery.TransactionTrace, Recovery.LogAll;
    var ev := Recovery.Event(Recovery.Transaction(us), stop);
    Recovery.TransactionEvent(g, d, ev);
    assert ([ev] + rest)[1..] == rest;
  }

  /** Every write that is ready has such runs: one for each number of sector writes after
      which it may be cut off, until there are no more to make. */
  lemma {:induction false} CutOff(f: Fs, owner: map<nat, Slot>, i: nat, off: Word, src: seq<Byte>, d: seq<Block>, stop: nat)
    returns (run: seq<Recovery.Event>)
    requires Shape(f) && i < f.sb.ninodes && Recovery.Clean(LogOf(f.sb), d) && Recovery.WellFormed(LogOf(f.sb), d)
    requires Ready(f, owner, i, off, |src|, d)
    ensures Recovery.LegalRun(LogOf(f.sb), d, true, run) && Chunks(f, i, off, src, run)
    ensures var n := Made(LogOf(f.sb), d, true, run); n <= stop && (n == stop || Complete(f, i, off, src, run))
    decreases |src|
  {
    hide Ready, Writes, Writei, Contents, Written, Boots, Recovery.Clean, Recovery.WellFormed, Recovery.Reached, Recovery.Finished;
    hide Recovery.TransactionTrace, Recovery.LegalRun, Made, Recovery.LogAll;
    run := [];
    MadeNone(LogOf(f.sb), d, true);
    if src != [] && !Refused(f, i, off, |src|) {
      var n1 := Min(|src|, MAXWRITE);
      var us := ChunkWrites(f, owner, i, off, src[..n1], |src| - n1, d);
      var g := Writei(Begin(f), i, off, src[..n1]).value.0;
      var ev, n := Recovery.Event(Recovery.Transaction(us), stop), |Recovery.TransactionTrace(LogOf(f.sb), d, us)|;
      var o1 := ChunkCrash(f, owner, i, off, src[..n1], |src| - n1, ev, d);
      var e := Recovery.Reached(LogOf(f.sb), d, ev);
      OneMore(LogOf(f.sb), d, us, stop, []);
      if stop >= n {
        ReadyShape(g, o1, i, off + n1, |src| - n1, e);
        run := CutOff(g, o1, i, off + n1, src[n1..], e, stop - n);
      } else {
        MadeNone(LogOf(f.sb), e, false);
      }
      OneMore(LogOf(f.sb), d, us, stop, run);
      assert ([ev] + run)[1..] == run;
      run := [ev] + run;
    }
  }

  /** A write of up to three blocks of bytes happens as a whole or not at all. */
  lemma SmallWriteAtomic(f: Fs, owner: map<nat, Slot>, i: nat, off: Word, src: seq<Byte>, run: seq<Recovery.Event>, d: seq<Block>)
    returns (owner': map<nat, Slot>)
    requires Shape(f) && SizesOk(f) && i < f.sb.ninodes && Recovery.Clean(LogOf(f.sb), d) && Recovery.WellFormed(LogOf(f.sb), d)
    requires Ready(f, owner, i, off, |src|, d) && Recovery.LegalRun(LogOf(f.sb), d, true, run) && Chunks(f, i, off, src, run)
    requires |src| <= 3 * BSIZE
    ensures var e := Recovery.RunDisk(LogOf(f.sb), d, true, run);
            Boots(f.sb, e, owner', Contents(f)) || Boots(f.sb, e, owner', Written(Contents(f), i, off, src))
  {
    hide Ready, Chunks, Boots, Contents, Written, Recovery.LegalRun, Recovery.RunDisk, Chunked;
    var m;
    owner', m := FilewriteCrash(f, owner, i, off, src, run, d);
    if m == 0 {
      assert src[..0] == [];
      WrittenNone(Contents(f), i, off);
    } else {
      assert src[..m] == src;
    }
  }
}
