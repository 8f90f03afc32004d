/** From mkfs to the running file system: what the log's recovery at boot does to an image,
    and what every history of file operations makes of it. */
module Boot {
  import opened Blocks
  import opened Counting
  import opened Options
  import opened FileSystem
  import opened FileBytes
  import opened FileMaps
  import opened Mkfs
  import opened FileRoom
  import FileLog
  import H = FileHistory
  import Recovery

  // ----- recover_from_log on any disk -----

  /** install_trans from log block k on, whatever sectors the header names. None where a
      sector is not on the disk, or is the log block itself, whose buffer is busy. */
  function Install(start: nat, d: seq<Block>, lh: seq<nat>, k: nat): (r: Option<seq<Block>>)
    requires k <= |lh|
    ensures r.Some? ==> |r.value| == |d|
    decreases |lh| - k
  {
    if k == |lh| then Some(d)
    else if start + k + 1 >= |d| || lh[k] >= |d| || lh[k] == start + k + 1 then None
    else Install(start, d[lh[k] := d[start + k + 1]], lh, k + 1)
  }

  /** The header's count is an int; one past the array in memory runs over what follows it. */
  function Recover(g: Recovery.Geometry, d: seq<Block>): (r: Option<seq<Block>>)
    requires g.Fits(d)
    ensures r.Some? ==> |r.value| == |d|
  {
    var n := Recovery.HeaderCount(d[g.start]);
    if Recovery.LOGSIZE < n < 0x8000_0000 then None
    else
      var r := Install(g.start, d, if n <= Recovery.LOGSIZE then Recovery.HeaderSectors(d[g.start]) else [], 0);
      if r.None? then None else Some(r.value[g.start := SetWord(r.value[g.start], 0, 0)])
  }

  lemma NoWrites(d: seq<Block>)
    ensures Recovery.Apply(d, []) == d
  {
  }

  lemma LogSector(g: Recovery.Geometry, lh: seq<nat>, k: nat)
    requires g.nlog > 0 && Recovery.LogList(g, lh) && k < |lh|
    ensures lh[k] < g.start && k + 1 < g.nlog
  {
  }

  lemma {:induction false} InstallIs(g: Recovery.Geometry, d: seq<Block>, e: seq<Block>, lh: seq<nat>, k: nat)
    requires g.Fits(d) && |e| == |d| && Recovery.LogList(g, lh) && k <= |lh|
    requires forall i :: g.start < i < |d| ==> e[i] == d[i]
    ensures Install(g.start, e, lh, k) == Some(Recovery.Apply(e, Recovery.InstallWrites(g, d, lh)[k..]))
    decreases |lh| - k
  {
    hide Recovery.Apply, Recovery.LogList;
    var ws := Recovery.InstallWrites(g, d, lh);
    if k == |lh| {
      NoWrites(e);
      assert ws[k..] == [];
    } else {
      LogSector(g, lh, k);
      var w := ws[k];
      assert [w] + ws[k + 1..] == ws[k..];
      Recovery.ApplyConcat(e, [w], ws[k + 1..]);
      Recovery.ApplyOne(e, w);
      InstallIs(g, d, e[lh[k] := d[g.start + 1 + k]], lh, k + 1);
    }
  }

  /** On a disk whose header names a transaction this is the log's recovery. */
  lemma RecoverIs(g: Recovery.Geometry, d: seq<Block>)
    requires Recovery.WellFormed(g, d)
    ensures Recover(g, d) == Some(Recovery.Recovered(g, d))
  {
    hide Install, SetWord, GetWord;
    var lh := Recovery.HeaderSectors(d[g.start]);
    var ws := Recovery.InstallWrites(g, d, lh);
    InstallIs(g, d, d, lh, 0);
    assert ws[0..] == ws;
    var e := Recovery.Apply(d, ws);
    var w := Recovery.Write(g.start, SetWord(d[g.start], 0, 0));
    Recovery.ApplyElsewhere(d, ws, g.start);
    Recovery.ApplyConcat(d, ws, [w]);
    Recovery.ApplyOne(e, w);
  }

  lemma SetNothing(b: Block)
    requires GetWord(b, 0) == 0
    ensures SetWord(b, 0, 0) == b
  {
    var b0: int, b1: int, b2: int, b3: int := b[0], b[1], b[2], b[3];
    assert b0 == 0 && b1 == 0 && b2 == 0 && b3 == 0;
  }

  /** Boot leaves a disk as it is exactly when the first word of the log's header is zero. */
  lemma BootUnchanged(g: Recovery.Geometry, d: seq<Block>)
    requires g.Fits(d)
    ensures Recover(g, d) == Some(d) <==> Recovery.Clean(g, d)
  {
    hide SetWord, GetWord;
    var n := Recovery.HeaderCount(d[g.start]);
    if n == 0 {
      SetNothing(d[g.start]);
      assert d[g.start := d[g.start]] == d;
    } else if Recover(g, d).Some? {
      var lh := if n <= Recovery.LOGSIZE then Recovery.HeaderSectors(d[g.start]) else [];
      var e := Install(g.start, d, lh, 0).value;
      GetSetWord(e[g.start], 0, 0, 0);
    }
  }

  // ----- The log of an image -----

  /** The block of a file that slot k has, for a slot of data. */
  function BlockOf(k: nat): nat {
    if k < NDIRECT then k else k - 1
  }

  /** The first four bytes of a file's block. */
  function Head(bs: seq<Byte>, bn: nat): (h: seq<Byte>)
    ensures |h| == 4
  {
    [At(bs, bn * BSIZE), At(bs, bn * BSIZE + 1), At(bs, bn * BSIZE + 2), At(bs, bn * BSIZE + 3)]
  }

  lemma WordBytes(b: Block)
    ensures GetWord(b, 0) == 0 <==> b[..4] == [0, 0, 0, 0]
    ensures b[2] != 0 && b[3] < 0x80 ==> Recovery.LOGSIZE < GetWord(b, 0) < 0x8000_0000
  {
    var b0: int, b1: int, b2: int, b3: int := b[0], b[1], b[2], b[3];
    assert b[..4] == [b[0], b[1], b[2], b[3]];
  }

  lemma BlockPlace(bn: nat, j: nat)
    requires j < BSIZE
    ensures (bn * BSIZE + j) / BSIZE == bn && (bn * BSIZE + j) % BSIZE == j
  {
  }

  /** The words of a file's block. */
  lemma FirstWord(f: Fs, i: nat, bs: seq<Byte>, k: nat)
    requires Shape(f) && f.sb == SB && SizesOk(f) && i < SB.ninodes && RoundedFile(f, i, bs)
    requires k < SLOTS && k != INDIRECT && 0 < Ref(f, i, k) < SB.size
    ensures f.blk[Ref(f, i, k)][..4] == Head(bs, BlockOf(k)) && BlockOf(k) * BSIZE < |bs|
  {
    hide Ref, RoundedFile, MappedTo, NeededBy;
    var bn := BlockOf(k);
    forall j | 0 <= j < 4 ensures f.blk[Ref(f, i, k)][j] == Head(bs, bn)[j] {
      BlockPlace(bn, j);
      FilePeek(f, i, bs, bn * BSIZE + j);
    }
    FileBlock(f, i, bs, bn);
  }

  lemma FilePeek(f: Fs, i: nat, bs: seq<Byte>, o: nat)
    requires Shape(f) && f.sb == SB && SizesOk(f) && i < SB.ninodes && RoundedFile(f, i, bs) && o < MAXFILE * BSIZE
    ensures Peek(f, i, o) == At(bs, o)
  {
    hide Peek, Bytes, Dinode, MappedTo;
  }

  lemma FileBlock(f: Fs, i: nat, bs: seq<Byte>, bn: nat)
    requires Shape(f) && f.sb == SB && SizesOk(f) && i < SB.ninodes && RoundedFile(f, i, bs) && bn < MAXFILE
    ensures Ref(f, i, SlotOf(bn)) != 0 <==> bn * BSIZE < |bs|
  {
    hide Peek, Bytes, Dinode, Ref;
    NeededData(|bs|, bn);
  }

  /** An indirect block begins with the number of a block. */
  lemma FirstPointer(f: Fs, owner: map<nat, Slot>, i: nat, bs: seq<Byte>)
    requires Owned(f, owner) && f.sb == SB && SizesOk(f) && i < SB.ninodes && RoundedFile(f, i, bs) && Ref(f, i, INDIRECT) != 0
    ensures Ref(f, i, INDIRECT) < SB.size && DATA <= GetWord(f.blk[Ref(f, i, INDIRECT)], 0) < SB.size
  {
    hide Bytes, Dinode, GetWord, Used;
    IndirectOwned(f, owner, i);
    NeededIndirect(|bs|);
    NeededData(|bs|, NDIRECT);
    var r := Ref(f, i, NDIRECT + 1);
    assert r != 0;
    assert OwnedBlock(f, owner[r], r);
  }

  lemma ImageParts(f: Fs, owner: map<nat, Slot>, files: seq<File>)
    requires |files| <= SB.ninodes - 2 && ImageOf(f, owner, files)
    ensures Owned(f, owner) && Shape(f) && f.sb == SB && SizesOk(f)
  {
    hide RoundedFile, Wanted;
  }

  lemma ImageFile(f: Fs, owner: map<nat, Slot>, files: seq<File>, i: nat)
    requires |files| <= SB.ninodes - 2 && ImageOf(f, owner, files) && i < SB.ninodes
    ensures Shape(f) && f.sb == SB && SizesOk(f) && RoundedFile(f, i, Wanted(files)[i])
  {
    hide RoundedFile, Wanted;
  }

  lemma OwnerOf(f: Fs, owner: map<nat, Slot>, b: nat)
    requires Owned(f, owner) && f.sb.DataStart() <= b < f.sb.size && Used(f, b)
    ensures b in owner && owner[b].inum < f.sb.ninodes && owner[b].k < SLOTS && Ref(f, owner[b].inum, owner[b].k) == b
  {
    hide Used, Ref;
    assert OwnedBlock(f, owner[b], b);
  }

  /** The log's header is a block of a file or of its list of blocks, and boot leaves the
      disk alone exactly when it is a file's and begins with zeros. */
  predicate HeaderFrom(f: Fs, owner: map<nat, Slot>, c: seq<seq<Byte>>)
    requires Shape(f) && f.sb == SB && |c| == SB.ninodes
  {
    && LOG.start in owner && owner[LOG.start].inum < SB.ninodes
    && var s := owner[LOG.start];
       && (if s.k == INDIRECT then DATA <= Recovery.HeaderCount(f.blk[LOG.start]) < SB.size
           else f.blk[LOG.start][..4] == Head(c[s.inum], BlockOf(s.k)) && BlockOf(s.k) * BSIZE < |c[s.inum]|)
       && (Recover(LOG, f.blk) == Some(f.blk) <==> s.k != INDIRECT && Head(c[s.inum], BlockOf(s.k)) == [0, 0, 0, 0])
  }

  /** So it is where the files reach into the log. */
  lemma HeaderIsFile(f: Fs, owner: map<nat, Slot>, files: seq<File>)
    requires |files| <= SB.ninodes - 2 && Shape(f) && f.sb == SB && ImageOf(f, owner, files)
    requires UsedBelow(f, DATA + Total(Wanted(files))) && LOG.start < DATA + Total(Wanted(files))
    ensures HeaderFrom(f, owner, Wanted(files))
  {
    hide Used, Wanted, Total, GetWord, Recover, RoundedFile, Ref, Head, Owned, ImageOf, BlockOf;
    var b := LOG.start;
    ImageParts(f, owner, files);
    OwnerOf(f, owner, b);
    var s := owner[b];
    ImageFile(f, owner, files, s.inum);
    BootUnchanged(LOG, f.blk);
    WordBytes(f.blk[b]);
    if s.k == INDIRECT {
      FirstPointer(f, owner, s.inum, Wanted(files)[s.inum]);
    } else {
      FirstWord(f, s.inum, Wanted(files)[s.inum], s.k);
    }
  }

  /** Seven files of the largest size: mkfs makes the image, and boot runs over the array
      in memory because it takes a file's words for a header. */
  lemma SevenFiles(f: Fs, owner: map<nat, Slot>)
    requires Shape(f) && f.sb == SB && ImageOf(f, owner, Copies(7, 71680)) && UsedBelow(f, DATA + Total(Wanted(Copies(7, 71680))))
    ensures Fits(Wanted(Copies(7, 71680))) && Total(Wanted(Copies(7, 71680))) == 988
    ensures LogOf(f.sb).Fits(f.blk) && Recover(LogOf(f.sb), f.blk) == None
  {
    hide Used, Wanted, Total, ImageOf, UsedBelow, Fits, Copies, Ones;
    var files := Copies(7, 71680);
    WantedTotal(files);
    CopiesBlocks(7, 71680);
    OnesBytes(71680);
    WantedFits(files);
    HeaderIsFile(f, owner, files);
    var s := owner[LOG.start];
    if s.k != INDIRECT {
      SevenBytes(s.inum, BlockOf(s.k));
      WordBytes(f.blk[LOG.start]);
      assert f.blk[LOG.start][2] == f.blk[LOG.start][..4][2] && f.blk[LOG.start][3] == f.blk[LOG.start][..4][3];
    }
  }

  lemma SevenBytes(i: nat, bn: nat)
    requires i < SB.ninodes && bn * BSIZE < |Wanted(Copies(7, 71680))[i]|
    ensures var h := Head(Wanted(Copies(7, 71680))[i], bn); h[2] != 0 && h[3] < 0x80
  {
    hide Joined, Entries, Copies, Ones;
    OnesBytes(71680);
    if i == ROOT {
      RootBytes(Copies(7, 71680));
    }
  }

  /** A root directory begins with its own number and a dot. */
  lemma {:induction false} RootBytes(files: seq<File>)
    requires |files| < 1000
    ensures Entries(files)[..4] == [1, 0, 46, 0]
  {
    if files == [] {
      assert Dirent(ROOT, [46])[..4] == [1, 0, 46, 0];
    } else {
      RootBytes(files[..|files| - 1]);
    }
  }

  predicate HeaderZero(owner: map<nat, Slot>, c: seq<seq<Byte>>) {
    && LOG.start in owner && owner[LOG.start].inum < |c| && owner[LOG.start].k != INDIRECT
    && Head(c[owner[LOG.start].inum], BlockOf(owner[LOG.start].k)) == [0, 0, 0, 0]
  }

  /** An image boots as mkfs made it exactly when its files end before the log, or the
      block of a file that lies where the log's header is begins with zeros. */
  lemma BootsAsMade(img: seq<Block>, owner: map<nat, Slot>, files: seq<File>)
    requires Disk(img) && |files| <= SB.ninodes - 2 && ImageOf(Mounted(img), owner, files)
    requires var n := DATA + Total(Wanted(files)); UsedBelow(Mounted(img), n) && ZeroFrom(img, n)
    ensures LogOf(Readsb(img[1])).Fits(img)
    ensures Recover(LogOf(Readsb(img[1])), img) == Some(img) <==>
              DATA + Total(Wanted(files)) <= SB.LogStart() || HeaderZero(owner, Wanted(files))
  {
    hide Wanted, Total, ImageOf, UsedBelow, ZeroFrom, Recover, Head;
    var n := DATA + Total(Wanted(files));
    ZeroLog(img, n);
    BootUnchanged(LOG, img);
    if LOG.start < n {
      HeaderIsFile(Mounted(img), owner, files);
    }
  }

  // ----- Histories from an image -----

  /** What the kernel finds in the files of an image. */
  function Found(files: seq<File>): (c: seq<seq<Byte>>)
    requires |files| <= SB.ninodes - 2
    ensures |c| == SB.ninodes
  {
    Wanted(files)[ROOT := RoundUp(Entries(files))]
  }

  lemma ImageContents(f: Fs, owner: map<nat, Slot>, files: seq<File>)
    requires |files| <= SB.ninodes - 2 && Shape(f) && f.sb == SB && SizesOk(f) && ImageOf(f, owner, files)
    ensures H.Contents(f) == Found(files)
  {
    hide ImageOf, RoundedFile, RoundUp, Bytes, Entries;
    forall i | 0 <= i < SB.ninodes ensures H.Contents(f)[i] == Found(files)[i] {
      ImageFile(f, owner, files, i);
      FileBytesAre(f, i, Wanted(files)[i]);
    }
  }

  lemma FileBytesAre(f: Fs, i: nat, bs: seq<Byte>)
    requires Shape(f) && f.sb == SB && SizesOk(f) && i < SB.ninodes && RoundedFile(f, i, bs)
    ensures Bytes(f, i) == (if i == ROOT then RoundUp(bs) else bs) && MappedTo(f, i, |bs|) && Synced(f, i)
  {
    hide Peek, MappedTo, Synced, RoundUp;
  }

  lemma FullBlocks(files: seq<File>)
    requires |files| <= SB.ninodes - 2
    ensures |Wanted(files)[ROOT]| == (2 + |files|) * 16
    ensures |Wanted(files)[ROOT]| % BSIZE == 0 <==> (2 + |files|) % 32 == 0
  {
    hide Entries;
    assert Wanted(files)[ROOT] == Entries(files);
    Sixteens(2 + |files|);
  }

  lemma Sixteens(n: nat)
    ensures n * 16 % BSIZE == 0 <==> n % 32 == 0
  {
    var q, r := n / 32, n % 32;
    assert n * 16 == q * 512 + r * 16;
  }

  /** The inodes of an image have the blocks of their sizes unless the entries of the root
      fill their last block. */
  lemma ImageExact(f: Fs, owner: map<nat, Slot>, files: seq<File>)
    requires |files| <= SB.ninodes - 2 && Shape(f) && f.sb == SB && ImageOf(f, owner, files)
    ensures H.Exact(f) <==> (2 + |files|) % 32 != 0
  {
    hide ImageOf, RoundedFile, MappedTo, Mapped, Synced, Wanted;
    FullBlocks(files);
    ImageRoot(f, owner, files);
    ImageParts(f, owner, files);
    forall i | 0 <= i < SB.ninodes ensures Synced(f, i) && (i != ROOT ==> Mapped(f, i)) {
      ImageFile(f, owner, files, i);
      FileBytesAre(f, i, Wanted(files)[i]);
      MappedSize(f, i);
    }
    if H.Exact(f) {
      assert Mapped(f, ROOT);
    }
  }

  lemma MappedSize(f: Fs, i: nat)
    requires Shape(f) && i < f.sb.ninodes
    ensures MappedTo(f, i, f.tab[i].size) ==> Mapped(f, i)
  {
    hide Ref, NeededBy;
  }

  lemma ImageRoot(f: Fs, owner: map<nat, Slot>, files: seq<File>)
    requires |files| <= SB.ninodes - 2 && Shape(f) && f.sb == SB && ImageOf(f, owner, files)
    ensures Mapped(f, ROOT) <==> |Wanted(files)[ROOT]| % BSIZE != 0
  {
    hide RoundedFile, Mapped, Wanted, Owned;
  }

  /** Every history of file operations on an image of mkfs that does not run out of blocks
      leaves each block with one owner, and returned and left what a table of byte
      sequences does that begins with the files. Where the root's entries do not fill their
      last block, the inodes have the blocks of their sizes and are on disk as in memory,
      and it does run out of blocks exactly when the files of the table do not fit. */
  lemma HistoryFromImage(img: seq<Block>, files: seq<File>, ops: seq<H.Op>) returns (owner': map<nat, Slot>)
    requires Disk(img) && |files| <= SB.ninodes - 2 && exists owner :: ImageOf(Mounted(img), owner, files)
    requires H.Legal(SB.ninodes, ops)
    ensures H.Run(Mounted(img), ops).Some? ==>
              var g := H.Run(Mounted(img), ops).value.0;
              && Owned(g, owner') && SizesOk(g)
              && (H.Contents(g), H.Run(Mounted(img), ops).value.1) == H.SpecRun(Found(files), ops)
              && ((2 + |files|) % 32 != 0 ==> H.Exact(g))
    ensures (2 + |files|) % 32 != 0 ==> (H.Run(Mounted(img), ops).Some? <==> H.AllFit(SB, Found(files), ops))
  {
    hide ImageOf, H.Exact, H.Run, H.SpecRun, H.Contents, Owned, Found, Mounted, H.AllFit;
    var f := Mounted(img);
    var owner :| ImageOf(f, owner, files);
    ImageParts(f, owner, files);
    ImageContents(f, owner, files);
    ImageExact(f, owner, files);
    owner' := H.FilesRefine(f, owner, ops);
    if H.Exact(f) {
      H.HistorySucceeds(f, owner, ops);
    }
  }

  // ----- The root whose entries fill their last block -----

  /** A lookup that comes to the end of the entries reads a block that is not there, and
      outside of a transaction panics in log_write; an entry written there gets a block,
      if one is left, that the inode on disk never learns of. */
  lemma RootUnmapped(f: Fs, owner: map<nat, Slot>, files: seq<File>, src: seq<Byte>)
    requires |files| <= SB.ninodes - 2 && Shape(f) && f.sb == SB && ImageOf(f, owner, files) && (2 + |files|) % 32 == 0
    requires |src| == 16
    ensures ReadiOutside(f, ROOT, (2 + |files|) * 16, 16) == None
    ensures UsedBelow(f, DATA + Total(Wanted(files))) ==>
              (Writei(f, ROOT, (2 + |files|) * 16, src).Some? <==> DATA + Total(Wanted(files)) < SB.size)
    ensures Writei(f, ROOT, (2 + |files|) * 16, src).Some? ==> !Synced(Writei(f, ROOT, (2 + |files|) * 16, src).value.0, ROOT)
  {
    hide ImageOf, RoundedFile, Wanted, ReadiOutside, Owned, Readi, Total, UsedBelow, Missing, FreeBelow, Writei, There, PointersThere;
    var off: Word := (2 + |files|) * 16;
    ImageParts(f, owner, files);
    FullBlocks(files);
    ImageFile(f, owner, files, ROOT);
    EndOfEntries(f, Wanted(files)[ROOT], off);
    ReadiOutsideCorrect(f, owner, ROOT, off, 16);
    WriteiSucceeds(f, owner, ROOT, off, src);
    if UsedBelow(f, DATA + Total(Wanted(files))) {
      FreeAfter(f, DATA + Total(Wanted(files)));
    }
    if Writei(f, ROOT, off, src).Some? {
      WriteiSynced(f, owner, ROOT, off, src, ROOT);
    }
  }

  lemma EndOfEntries(f: Fs, bs: seq<Byte>, off: nat)
    requires Shape(f) && f.sb == SB && SizesOk(f) && RoundedFile(f, ROOT, bs) && |bs| == off && off % BSIZE == 0 && off < NDIRECT * BSIZE
    ensures f.tab[ROOT].size == off + BSIZE && Synced(f, ROOT) && !There(f, ROOT, off, 16) && !PointersThere(f, ROOT, off, 16)
    ensures |Missing(f, ROOT, off, 16)| == 1
  {
    hide RoundedFile, Ref, Bytes, Dinode;
    FileBytesAre(f, ROOT, bs);
    assert |Bytes(f, ROOT)| == off + BSIZE;
    var bn := off / BSIZE;
    FileBlock(f, ROOT, bs, bn);
    assert Touched(off, 16, SlotOf(bn)) by {
      NeedsSelf(bn);
      assert off / BSIZE <= bn && bn * BSIZE < off + 16 && Needs(bn, SlotOf(bn));
    }
    forall l | 0 <= l < SLOTS && Touched(off, 16, l) ensures l == bn {
      OneBlock(off, l);
    }
    assert Missing(f, ROOT, off, 16) == {bn};
  }

  lemma OneBlock(off: nat, l: nat)
    requires off % BSIZE == 0 && off < NDIRECT * BSIZE && Touched(off, 16, l)
    ensures l == off / BSIZE
  {
    var bn :| off / BSIZE <= bn && bn * BSIZE < off + 16 && Needs(bn, l);
  }

  /** The blocks left where the first n are in use. */
  lemma FreeAfter(f: Fs, n: nat)
    requires Shape(f) && UsedBelow(f, n)
    ensures |FreeBlocks(f)| >= 1 <==> n < f.sb.size
  {
    hide Used;
    if n < f.sb.size {
      assert n in FreeBlocks(f);
    } else {
      assert FreeBlocks(f) == {};
    }
  }

  /** Thirty empty files are such a number. */
  lemma ThirtyFiles(f: Fs, owner: map<nat, Slot>, src: seq<Byte>)
    requires Shape(f) && f.sb == SB && ImageOf(f, owner, Copies(30, 0)) && |src| == 16
    requires UsedBelow(f, DATA + Total(Wanted(Copies(30, 0))))
    ensures Fits(Wanted(Copies(30, 0))) && !H.Exact(f)
    ensures ReadiOutside(f, ROOT, 512, 16) == None
    ensures Writei(f, ROOT, 512, src).Some? && !Synced(Writei(f, ROOT, 512, src).value.0, ROOT)
  {
    hide ImageOf, Wanted, ReadiOutside, Synced, Writei, Total, Ones, H.Exact, Fits, UsedBelow;
    var files := Copies(30, 0);
    RootUnmapped(f, owner, files, src);
    ImageExact(f, owner, files);
    WantedTotal(files);
    CopiesBlocks(30, 0);
    OnesBytes(0);
    WantedFits(files);
  }

  // ----- Room before the log -----

  /** In an image of T blocks there is room before the log for 985 - T more, so that the
      first write of so many is one FileLog speaks of. */
  lemma ImageRoom(f: Fs, owner: map<nat, Slot>, files: seq<File>, i: nat, off: nat, n: nat)
    requires |files| <= SB.ninodes - 2 && Shape(f) && f.sb == SB && ImageOf(f, owner, files) && i < SB.ninodes
    requires UsedBelow(f, DATA + Total(Wanted(files))) && Total(Wanted(files)) + |Missing(f, i, off, n)| <= 985
    ensures FileLog.Room(f, i, off, n)
  {
    hide ImageOf, Wanted, Total, Used, Missing, Ref;
    ImageParts(f, owner, files);
    var t := DATA + Total(Wanted(files));
    RangeSize(t, LOG.start);
    assert FreeBelow(f, LOG.start) == Range(t, LOG.start);
    forall j, l | 0 <= j < SB.ninodes && 0 <= l < SLOTS ensures Ref(f, j, l) < LOG.start {
      var r := Ref(f, j, l);
      if r != 0 {
        assert OwnedBlock(f, owner[r], r);
        assert Used(f, r);
      }
    }
  }
}
