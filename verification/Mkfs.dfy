/** mkfs.c: the image it writes is the one the kernel itself would have written. mkfs hands
    out blocks by counting and fills in the bitmap at the very end; balloc searches the
    bitmap. Seen with the bitmap it is going to have, the image goes through the same
    states under iappend as under writei, so it is a consistent file system. */
module Mkfs {
  import opened Blocks
  import opened Options
  import opened FileSystem
  import opened FileBytes
  import opened FileMaps
  import opened FileRoom
  import Recovery

  /** size, ninodes and nlog of mkfs.c */
  const SB := Super(1024, 200, 10)

  /** Where the bitmap is, and the first block after it. */
  const BITMAP: nat := 28
  const DATA: nat := 29

  /** The last nlog blocks. */
  const LOG := LogOf(SB)

  const ROOT: nat := 1
  const T_DIR: Word := 1
  const T_FILE: Word := 2
  const ONE_LINK: Word := 0x1_0000
  const DIRSIZ: nat := 14

  // ----- The image with its bitmap to be -----

  /** A bitmap block with the first n bits set. */
  function FirstBits(n: nat): Block
    requires n <= BPB
  {
    if n == 0 then Zero() else SetBit(FirstBits(n - 1), n - 1)
  }

  lemma {:induction false} NoBits(k: nat)
    ensures !BitOf(0, k)
  {
    if k > 0 {
      NoBits(k - 1);
    }
  }

  lemma {:induction false} GetFirstBits(n: nat, j: nat)
    requires n <= BPB && j < BPB
    ensures GetBit(FirstBits(n), j) <==> j < n
  {
    if n == 0 {
      NoBits(j % 8);
    } else {
      GetFirstBits(n - 1, j);
      GetSetBit(FirstBits(n - 1), n - 1, j);
    }
  }

  /** size, nblocks, ninodes and nlog, as words */
  function SuperBlock(): Block {
    PutWords(Zero(), 0, [1024, 985, 200, 10])
  }

  /** A disk on which readsb finds this file system. */
  predicate Disk(img: seq<Block>) {
    |img| == SB.size && Readsb(img[1]) == SB
  }

  /** What readsb makes of mkfs's block: the sizes mkfs laid the image out by. */
  lemma SuperRead()
    ensures Readsb(SuperBlock()) == SB && GetWord(SuperBlock(), 1) + DATA + SB.nlog == SB.size
    ensures SB.BBlock(0) == BITMAP && SB.DataStart() == DATA
  {
    hide PutWords, GetWord;
    var ws: seq<Word> := [1024, 985, 200, 10];
    GetPutWords(Zero(), 0, ws, 0);
    GetPutWords(Zero(), 0, ws, 1);
    GetPutWords(Zero(), 0, ws, 2);
    GetPutWords(Zero(), 0, ws, 3);
  }

  /** An image under construction: fb is the next block to hand out. */
  predicate Img(img: seq<Block>, tab: seq<Inode>, fb: nat) {
    && |img| == SB.size && |tab| == SB.ninodes && DATA <= fb <= SB.size && img[1] == SuperBlock()
    && (forall i :: 0 <= i < |tab| ==> |tab[i].addrs| == NDIRECT + 1)
    && (forall b :: fb <= b < |img| ==> img[b] == Zero())
  }

  function View(img: seq<Block>, tab: seq<Inode>, fb: nat, logged: set<nat>): (f: Fs)
    requires Img(img, tab, fb)
    ensures Shape(f) && f.sb == SB && f.tab == tab && f.logged == logged
  {
    Fs(SB, img[BITMAP := FirstBits(fb)], tab, logged)
  }

  lemma ViewUsed(img: seq<Block>, tab: seq<Inode>, fb: nat, logged: set<nat>, b: nat)
    requires Img(img, tab, fb) && b < SB.size
    ensures Used(View(img, tab, fb, logged), b) <==> b < fb
  {
    GetFirstBits(fb, b);
  }

  /** balloc would find the block mkfs takes. */
  lemma ViewFree(img: seq<Block>, tab: seq<Inode>, fb: nat, logged: set<nat>)
    requires Img(img, tab, fb)
    ensures FirstFree(View(img, tab, fb, logged), 0) == fb
  {
    hide Used, View;
    var x := FirstFree(View(img, tab, fb, logged), 0);
    if x < SB.size {
      ViewUsed(img, tab, fb, logged, x);
    }
    if fb < SB.size {
      ViewUsed(img, tab, fb, logged, fb);
    }
  }

  lemma ViewAllocate(img: seq<Block>, tab: seq<Inode>, fb: nat, logged: set<nat>)
    requires Img(img, tab, fb) && fb < SB.size
    ensures Img(img, tab, fb + 1)
    ensures Allocate(View(img, tab, fb, logged), fb) == View(img, tab, fb + 1, logged + {BITMAP} + {fb})
  {
    hide SetBit, Zero, FirstBits;
    FirstBitsNext(fb);
    assert img[BITMAP := FirstBits(fb)][BITMAP := FirstBits(fb + 1)][fb := Zero()] == img[BITMAP := FirstBits(fb + 1)];
  }

  lemma FirstBitsNext(n: nat)
    requires n < BPB
    ensures FirstBits(n + 1) == SetBit(FirstBits(n), n)
  {
  }

  lemma ViewSet(img: seq<Block>, tab: seq<Inode>, fb: nat, logged: set<nat>, b: nat, x: Block)
    requires Img(img, tab, fb) && b != BITMAP && 1 < b < fb
    ensures Img(img[b := x], tab, fb)
    ensures SetBlock(View(img, tab, fb, logged), b, x) == View(img[b := x], tab, fb, logged + {b})
  {
    assert img[BITMAP := FirstBits(fb)][b := x] == img[b := x][BITMAP := FirstBits(fb)];
  }

  /** Blocks in use are data blocks that have been handed out. */
  lemma OwnedBelow(img: seq<Block>, tab: seq<Inode>, fb: nat, logged: set<nat>, owner: map<nat, Slot>, i: nat, k: nat)
    requires Img(img, tab, fb) && Owned(View(img, tab, fb, logged), owner) && i < SB.ninodes && k < SLOTS
    ensures var r := Ref(View(img, tab, fb, logged), i, k);
            r != 0 ==> DATA <= r < fb
  {
    var f := View(img, tab, fb, logged);
    hide Used, Ref, View, FirstBits;
    var r := Ref(f, i, k);
    if r != 0 {
      assert OwnedBlock(f, owner[r], r);
      ViewUsed(img, tab, fb, logged, r);
    }
  }

  /** Handing out the next block to a slot is what bmap does for it. */
  lemma ViewFill(img: seq<Block>, tab: seq<Inode>, fb: nat, logged: set<nat>, i: nat, k: nat)
    requires Img(img, tab, fb) && i < SB.ninodes && k < SLOTS && Fill.requires(View(img, tab, fb, logged), i, k)
    requires Ref(View(img, tab, fb, logged), i, k) == 0
    ensures Fill(View(img, tab, fb, logged), i, k).Some? <==> fb < SB.size
    ensures fb < SB.size ==>
              && Img(img, tab, fb + 1)
              && Fill(View(img, tab, fb, logged), i, k) ==
                 Some(Attach(View(img, tab, fb + 1, logged + {BITMAP} + {fb}), i, k, fb))
  {
    hide Ref, View, Allocate, FirstFree, Attach;
    ViewFree(img, tab, fb, logged);
    if fb < SB.size {
      ViewAllocate(img, tab, fb, logged);
    }
  }

  class Builder {
    var img: seq<Block>
    var freeblock: nat
    var usedblocks: nat
    var freeinode: nat
    ghost var tab: seq<Inode>
    ghost var logged: set<nat>

    ghost predicate Sound()
      reads this
    {
      Img(img, tab, freeblock) && usedblocks == freeblock
    }

    ghost function V(): (f: Fs)
      requires Sound()
      reads this
      ensures Shape(f)
    {
      View(img, tab, freeblock, logged)
    }

    /** An image of nothing but the superblock. */
    constructor ()
      ensures Sound() && freeinode == 1 && Holding(V(), map[], Nothing()) && freeblock == DATA
      ensures tab == seq(SB.ninodes, _ => ZeroInode())
    {
      hide Holding, PutWords;
      img := seq(SB.size, _ => Zero())[1 := SuperBlock()];
      freeblock, usedblocks, freeinode := DATA, DATA, 1;
      tab, logged := seq(SB.ninodes, _ => ZeroInode()), {};
      new;
      EmptyHolds(img, tab);
    }

    method Rinode(inum: nat) returns (din: Inode)
      requires Sound() && inum < SB.ninodes
      ensures din == Dinode(V(), inum)
    {
      InodeInside(SB, inum);
      var ws := GetWords(img[inum / IPB + 2], 16 * (inum % IPB), 16);
      din := Inode(ws[0], ws[1], ws[2], ws[3..]);
    }

    method Winode(inum: nat, din: Inode)
      requires Sound() && inum < SB.ninodes && |din.addrs| == NDIRECT + 1
      modifies this`img, this`tab, this`logged
      ensures Sound() && V() == SetInode(old(V()), inum, din)
    {
      hide PutWords, Zero, FirstBits;
      InodeInside(SB, inum);
      var bn := inum / IPB + 2;
      tab := tab[inum := din];
      ViewSet(img, tab, freeblock, logged, bn, PutWords(img[bn], 16 * (inum % IPB), InodeWords(din)));
      ViewBlock(img, tab, freeblock, logged, bn);
      img := img[bn := PutWords(img[bn], 16 * (inum % IPB), InodeWords(din))];
      logged := logged + {bn};
    }

    method Ialloc(kind: Word, ghost owner: map<nat, Slot>, ghost contents: seq<seq<Byte>>) returns (inum: nat)
      requires Sound() && Holding(V(), owner, contents) && freeinode < SB.ninodes && contents[freeinode] == []
      modifies this`img, this`tab, this`logged, this`freeinode
      ensures Sound() && Holding(V(), owner, contents) && inum == old(freeinode) && freeinode == inum + 1
      ensures tab == old(tab)[inum := ZeroInode().(kind := kind, links := ONE_LINK)]
    {
      hide Holding, SetInode;
      inum := freeinode;
      freeinode := freeinode + 1;
      EmptyInode(V(), owner, contents, inum);
      var din := ZeroInode().(kind := kind, links := ONE_LINK);
      RetagHolds(V(), owner, contents, inum, din);
      Winode(inum, din);
    }

    /** iappend: writei at the end of the file, with blocks handed out by counting. */
    method Iappend(inum: nat, p: seq<Byte>, ghost owner: map<nat, Slot>, ghost contents: seq<seq<Byte>>)
      returns (ok: bool, ghost owner': map<nat, Slot>)
      requires Sound() && Holding(V(), owner, contents) && inum < SB.ninodes && freeblock == DATA + Total(contents)
      modifies this`img, this`freeblock, this`usedblocks, this`tab, this`logged
      ensures |contents| == SB.ninodes && (ok <==> Fits(Grown(contents, inum, p)))
      ensures ok ==> Sound() && SameKinds(old(tab), tab) && Holding(V(), owner', Grown(contents, inum, p))
                     && freeblock == DATA + Total(Grown(contents, inum, p))
      ensures ok && p != [] ==>
                var w := Writei(old(V()), inum, |contents[inum]|, p);
                w.Some? && w.value == (V(), |p|)
    {
      hide Holding, WriteAll, SetInode, Owned, Img, View, MappedTo, NBlocks, Total, Fits, SameKinds, Grown;
      HoldingInode(V(), owner, contents, inum);
      FitsAppend(V(), owner, contents, inum, p);
      owner' := owner;
      var din := Rinode(inum);
      ImgSize(img, tab, freeblock);
      var off := din.size + |p|;
      ok, din := AppendAll(inum, din, p, owner);
      if !ok {
        return;
      }
      ImgSize(img, tab, freeblock);
      owner' := AppendHolds(old(V()), owner, contents, inum, p, V());
      Winode(inum, din.(size := off));
    }

    /** iappend's loop. */
    method AppendAll(inum: nat, din: Inode, p: seq<Byte>, ghost owner: map<nat, Slot>) returns (ok: bool, din': Inode)
      requires Sound() && Owned(V(), owner) && inum < SB.ninodes && tab[inum] == din && MappedTo(V(), inum, din.size)
      modifies this`img, this`freeblock, this`usedblocks, this`tab, this`logged
      ensures ok ==> Sound() && tab[inum] == din' && WriteAll(old(V()), inum, din.size, p) == Some(V())
                     && freeblock == old(freeblock) + NBlocks(din.size + |p|) - NBlocks(din.size)
      ensures ok <==> (p == [] || din.size + |p| <= MAXFILE * BSIZE)
                      && old(freeblock) + NBlocks(din.size + |p|) - NBlocks(din.size) <= SB.size
    {
      hide WriteAll, WriteChunk, Owned, Img, View, MappedTo, NBlocks;
      var off, tot := din.size, 0;
      ghost var owner' := owner;
      ok, din' := true, din;
      ImgSize(img, tab, freeblock);
      while tot < |p|
        invariant 0 <= tot <= |p| && off == din.size + tot && ok && inum < SB.ninodes
        invariant tot > 0 ==> off <= MAXFILE * BSIZE
        invariant Sound() && freeblock <= SB.size && Owned(V(), owner') && tab[inum] == din'
        invariant MappedTo(V(), inum, off) && freeblock == old(freeblock) + NBlocks(off) - NBlocks(din.size)
        invariant WriteAll(old(V()), inum, din.size, p) == WriteAll(V(), inum, off, p[tot..])
      {
        ghost var f := V();
        ghost var o1 := WriteChunkSplices(f, owner', inum, off, p[tot..]);
        AppendStep(f, inum, off, p[tot..]);
        var n1: nat;
        ok, din', n1 := AppendOne(inum, din', off, p[tot..], owner');
        ChunkEnd(off, |p| - tot);
        if !ok {
          NBlocksGrows(off + n1, din.size + |p|);
          return;
        }
        ExtendsOwned(f, owner', V(), o1, inum);
        ImgSize(img, tab, freeblock);
        owner' := o1;
        assert p[tot..][n1..] == p[tot + n1..];
        off, tot := off + n1, tot + n1;
      }
      assert p[tot..] == [];
      AppendDone(V(), inum, off);
    }

    /** The root directory with its two entries. */
    method MakeRoot() returns (ok: bool, ghost owner: map<nat, Slot>)
      requires Sound() && freeinode == 1 && freeblock == DATA && Holding(V(), map[], Nothing())
      requires tab == seq(SB.ninodes, _ => ZeroInode())
      modifies this
      ensures ok <==> Fits(Wanted([]))
      ensures ok ==> Sound() && freeinode == 2 && freeblock == DATA + Total(Wanted([])) && Kinds(tab, [])
                     && Holding(V(), owner, Wanted([]))
    {
      hide Holding, WriteAll, Img, View, Wanted, Total, Fits, Kinds, SameKinds, Dirent, Grown;
      HoldingInode(V(), map[], Nothing(), ROOT);
      NothingTotal();
      WantedStart();
      KindsRoot();
      var root := Ialloc(T_DIR, map[], Nothing());
      ghost var rooted := tab;
      ok, owner := Iappend(root, Dirent(root, [46]), map[], Nothing());
      if !ok {
        return;
      }
      ghost var dotted := tab;
      ok, owner := Iappend(root, Dirent(root, [46, 46]), owner, Grown(Nothing(), ROOT, Dirent(ROOT, [46])));
      KindsSame(rooted, dotted, tab);
      if ok {
        KindsKept(rooted, tab, []);
      }
    }

    /** The size of the root, then the bitmap. */
    method Finish(ghost owner: map<nat, Slot>, files: seq<File>)
      requires |files| <= SB.ninodes - 2 && Sound() && Holding(V(), owner, Wanted(files)) && Kinds(tab, files)
      requires freeblock == DATA + Total(Wanted(files))
      modifies this
      ensures Fits(Wanted(files)) && Disk(img) && img[1] == SuperBlock()
      ensures exists owner' :: ImageOf(Mounted(img), owner', files)
      ensures UsedBelow(Mounted(img), DATA + Total(Wanted(files))) && ZeroFrom(img, DATA + Total(Wanted(files)))
    {
      hide Holding, Img, View, Rounded, Wanted, SuperBlock, Total, Fits, ImageOf, UsedBelow, Mounted, Kinds, SameKinds, ZeroFrom;
      HoldingFits(img, tab, freeblock, logged, owner, Wanted(files));
      WantedRoot(files);
      ghost var made := tab;
      FixRoot(owner, Wanted(files));
      ImgSize(img, tab, freeblock);
      KindsKept(made, tab, files);
      ghost var f := V();
      ViewBlocks(img, tab, freeblock, logged);
      ImgZero(img, tab, freeblock, FirstBits(freeblock));
      Balloc(usedblocks);
      SuperRead();
      ImageMade(img, f, owner, files, freeblock);
    }

    /** A file's chunks, one iappend each. */
    method AppendChunks(inum: nat, chunks: seq<seq<Byte>>, ghost owner: map<nat, Slot>, ghost contents: seq<seq<Byte>>)
      returns (ok: bool, ghost owner': map<nat, Slot>)
      requires Sound() && Holding(V(), owner, contents) && inum < SB.ninodes && freeblock == DATA + Total(contents)
      modifies this`img, this`freeblock, this`usedblocks, this`tab, this`logged
      ensures |contents| == SB.ninodes && (ok <==> Fits(Grown(contents, inum, Joined(chunks))))
      ensures ok ==> Sound() && SameKinds(old(tab), tab)
                     && Holding(V(), owner', Grown(contents, inum, Joined(chunks)))
                     && freeblock == DATA + Total(Grown(contents, inum, Joined(chunks)))
    {
      hide Holding, WriteAll, Img, View, Total, Fits, NBlocks, SameKinds, Grown, Joined;
      HoldingInode(V(), owner, contents, inum);
      var k := 0;
      owner', ok := owner, true;
      GrownNone(contents, inum, chunks);
      KindsSame(tab, tab, tab);
      while k < |chunks|
        invariant 0 <= k <= |chunks| && Sound() && SameKinds(old(tab), tab)
        invariant Holding(V(), owner', Grown(contents, inum, Joined(chunks[..k])))
        invariant freeblock == DATA + Total(Grown(contents, inum, Joined(chunks[..k])))
      {
        GrownNext(contents, inum, chunks, k);
        ghost var was := tab;
        ok, owner' := Iappend(inum, chunks[k], owner', Grown(contents, inum, Joined(chunks[..k])));
        if !ok {
          return;
        }
        KindsSame(old(tab), was, tab);
        k := k + 1;
      }
      assert chunks[..k] == chunks;
      HoldingFits(img, tab, freeblock, logged, owner', Grown(contents, inum, Joined(chunks)));
      ok := true;
    }

    /** One file of the command line: its inode, its entry in the root, its bytes. */
    method AddFile(file: File, ghost owner: map<nat, Slot>, ghost contents: seq<seq<Byte>>)
      returns (ok: bool, ghost owner': map<nat, Slot>)
      requires Sound() && Holding(V(), owner, contents) && ROOT < freeinode < SB.ninodes && contents[freeinode] == []
      requires freeblock == DATA + Total(contents)
      modifies this
      ensures ok <==> Fits(Added(contents, old(freeinode), file))
      ensures ok ==>
                && freeblock == DATA + Total(Added(contents, old(freeinode), file))
                && Sound() && freeinode == old(freeinode) + 1
                && SameKinds(old(tab)[old(freeinode) := ZeroInode().(kind := T_FILE, links := ONE_LINK)], tab)
                && Holding(V(), owner', Added(contents, old(freeinode), file))
    {
      hide Holding, WriteAll, Img, View, Total, Fits, Dirent;
      HoldingInode(V(), owner, contents, ROOT);
      var inum := Ialloc(T_FILE, owner, contents);
      ok, owner' := Iappend(ROOT, Dirent(inum, EntryName(file.name)), owner, contents);
      ghost var listed := contents[ROOT := contents[ROOT] + Dirent(inum, EntryName(file.name))];
      if !ok {
        FitsWithin(listed, Added(contents, inum, file));
        return;
      }
      ok, owner' := AppendChunks(inum, file.chunks, owner', listed);
    }

    /** The root directory's size becomes the next multiple of the block size. */
    method FixRoot(ghost owner: map<nat, Slot>, ghost contents: seq<seq<Byte>>)
      requires Sound() && Holding(V(), owner, contents) && |contents[ROOT]| < (MAXFILE - 1) * BSIZE
      modifies this`img, this`tab, this`logged
      ensures Sound() && SameKinds(old(tab), tab) && Rounded(V(), owner, contents)
    {
      hide Holding, Img, View, SetInode, Rounded;
      HoldingInode(V(), owner, contents, ROOT);
      var din := Rinode(ROOT);
      RoundHolds(V(), owner, contents);
      Winode(ROOT, din.(size := (din.size / BSIZE + 1) * BSIZE));
    }

    /** balloc: the bitmap of the blocks handed out. */
    method Balloc(used: nat)
      requires Sound() && used < BPB
      modifies this`img
      ensures img == old(img)[BITMAP := FirstBits(used)]
    {
      hide SetBit;
      var buf := Zero();
      var i := 0;
      while i < used
        invariant 0 <= i <= used && buf == FirstBits(i) && img == old(img)
      {
        FirstBitsNext(i);
        buf := SetBit(buf, i);
        i := i + 1;
      }
      img := img[BITMAP := buf];
    }

    /** One round of iappend's loop: the block of offset off, and the bytes that go there.
        din is the inode as iappend holds it. */
    method AppendOne(inum: nat, din: Inode, off: nat, p: seq<Byte>, ghost owner: map<nat, Slot>)
      returns (ok: bool, din': Inode, n1: nat)
      requires Sound() && Owned(V(), owner) && inum < SB.ninodes && tab[inum] == din && p != []
      requires MappedTo(V(), inum, off)
      modifies this`img, this`freeblock, this`usedblocks, this`tab, this`logged
      ensures n1 == Chunk(off, |p|)
      ensures ok == WriteChunk(old(V()), inum, off, p).Some?
      ensures ok ==> Sound() && V() == WriteChunk(old(V()), inum, off, p).value && tab[inum] == din'
      ensures ok ==> freeblock == old(freeblock) + NBlocks(off + n1) - NBlocks(off) && MappedTo(V(), inum, off + n1)
      ensures ok <==> off / BSIZE < MAXFILE && old(freeblock) + NBlocks(off + n1) - NBlocks(off) <= SB.size
    {
      hide Owned, Bmap, Ref, FirstBits, MappedTo, Cost, NBlocks;
      ghost var f := V();
      ChunkCost(f, inum, off, |p|);
      ghost var o1 := BmapExtends(f, owner, inum, off / BSIZE);
      var fbn := off / BSIZE;
      n1 := Chunk(off, |p|);
      var x: nat;
      ok, din', x := BlockOf(inum, din, fbn, owner);
      if ok {
        OwnedBelow(img, tab, freeblock, logged, o1, inum, SlotOf(fbn));
        var buf := img[x];
        var q := off % BSIZE;
        ViewSet(img, tab, freeblock, logged, x, buf[..q] + p[..n1] + buf[q + n1..]);
        ViewBlock(img, tab, freeblock, logged, x);
        img := img[x := buf[..q] + p[..n1] + buf[q + n1..]];
        logged := logged + {x};
        ChunkMapped(f, owner, inum, off, p);
      }
    }

    /** The block number of file block fbn, handed out if there is none. ok is false where
        the source stops: at its assertion, or when it reads a sector past the image. */
    method BlockOf(inum: nat, din: Inode, fbn: nat, ghost owner: map<nat, Slot>)
      returns (ok: bool, din': Inode, x: nat)
      requires Sound() && Owned(V(), owner) && inum < SB.ninodes && tab[inum] == din
      modifies this`img, this`freeblock, this`usedblocks, this`tab, this`logged
      ensures ok ==> freeblock == old(freeblock) + Cost(old(V()), inum, fbn)
      ensures ok <==> fbn < MAXFILE && old(freeblock) + Cost(old(V()), inum, fbn) <= SB.size
      ensures ok == Bmap(old(V()), inum, fbn).Some?
      ensures ok ==> Sound() && V() == Bmap(old(V()), inum, fbn).value && tab[inum] == din'
      ensures ok ==> x == Ref(V(), inum, SlotOf(fbn)) < SB.size
    {
      hide Owned, Fill, Ref, FirstBits, Extends, View, Img;
      ghost var f := V();
      if fbn >= MAXFILE {
        return false, din, 0;
      }
      if fbn >= NDIRECT {
        ok, din', x := IndirectBlock(inum, din, fbn, owner);
        return;
      }
      ghost var o1 := FillExtends(f, owner, inum, fbn);
      ok, din' := Pointer(inum, din, fbn);
      x := din'.addrs[fbn];
      if ok {
        ExtendsOwned(f, owner, V(), o1, inum);
        OwnedBelow(img, tab, freeblock, logged, o1, inum, fbn);
        ImgSize(img, tab, freeblock);
        DirectRef(V(), inum, fbn);
      }
    }

    method IndirectBlock(inum: nat, din: Inode, fbn: nat, ghost owner: map<nat, Slot>)
      returns (ok: bool, din': Inode, x: nat)
      requires Sound() && Owned(V(), owner) && inum < SB.ninodes && tab[inum] == din && NDIRECT <= fbn < MAXFILE
      modifies this`img, this`freeblock, this`usedblocks, this`tab, this`logged
      ensures ok ==> freeblock == old(freeblock) + Cost(old(V()), inum, fbn)
      ensures ok <==> old(freeblock) + Cost(old(V()), inum, fbn) <= SB.size
      ensures ok == Bmap(old(V()), inum, fbn).Some?
      ensures ok ==> Sound() && V() == Bmap(old(V()), inum, fbn).value && tab[inum] == din'
      ensures ok ==> x == Ref(V(), inum, SlotOf(fbn)) < SB.size
    {
      hide Owned, Fill, Ref, FirstBits, Extends, View, Img;
      ghost var f := V();
      x := 0;
      ghost var o1 := FillExtends(f, owner, inum, INDIRECT);
      ok, din' := Pointer(inum, din, INDIRECT);
      if !ok {
        return;
      }
      ghost var g := V();
      ExtendsOwned(f, owner, g, o1, inum);
      FillRef(f, owner, inum, INDIRECT, inum, fbn + 1);
      PointerRef(g, inum);
      IndirectOwned(g, o1, inum);
      ghost var o2 := FillExtends(g, o1, inum, fbn + 1);
      ok, x := Listed(inum, din', fbn - NDIRECT, o1);
      if ok {
        ExtendsOwned(g, o1, V(), o2, inum);
        OwnedBelow(img, tab, freeblock, logged, o2, inum, fbn + 1);
        ImgSize(img, tab, freeblock);
      }
    }

    /** A pointer in the inode: the next block if it is zero. */
    method Pointer(inum: nat, din: Inode, k: nat) returns (ok: bool, din': Inode)
      requires Sound() && inum < SB.ninodes && tab[inum] == din && k <= INDIRECT
      modifies this`freeblock, this`usedblocks, this`tab, this`logged
      ensures |din'.addrs| == NDIRECT + 1
      ensures freeblock == old(freeblock) + (if Ref(old(V()), inum, k) == 0 then 1 else 0) && ok == (freeblock <= SB.size)
      ensures ok == Fill(old(V()), inum, k).Some?
      ensures ok ==> Sound() && V() == Fill(old(V()), inum, k).value && tab[inum] == din'
    {
      hide Fill, Used, FirstBits;
      din' := din;
      if din.addrs[k] == 0 {
        ViewFill(img, tab, freeblock, logged, inum, k);
        din' := din.(addrs := din.addrs[k := freeblock]);
        tab, logged := tab[inum := din'], logged + {BITMAP} + {freeblock};
        freeblock, usedblocks := freeblock + 1, usedblocks + 1;
      } else {
        FillKeeps(V(), inum, k);
      }
      ok := freeblock <= |img|;
    }

    /** Word j of the indirect block: the next block if it is zero. */
    method Listed(inum: nat, din: Inode, j: nat, ghost owner: map<nat, Slot>) returns (ok: bool, x: nat)
      requires Sound() && Owned(V(), owner) && inum < SB.ninodes && tab[inum] == din && j < NINDIRECT
      requires DATA <= din.addrs[INDIRECT] < SB.size
      modifies this`img, this`freeblock, this`usedblocks, this`logged
      ensures freeblock == old(freeblock) + (if Ref(old(V()), inum, j + NDIRECT + 1) == 0 then 1 else 0)
      ensures ok == (freeblock <= SB.size) == Fill(old(V()), inum, j + NDIRECT + 1).Some?
      ensures ok ==> Sound() && V() == Fill(old(V()), inum, j + NDIRECT + 1).value && x == Ref(V(), inum, j + NDIRECT + 1)
    {
      hide Fill, Used, FirstBits, GetWord, SetWord, Owned;
      var ind := din.addrs[INDIRECT];
      ghost var k := j + NDIRECT + 1;
      OwnedBelow(img, tab, freeblock, logged, owner, inum, INDIRECT);
      ViewBlock(img, tab, freeblock, logged, ind);
      x := GetWord(img[ind], j);
      if x == 0 {
        ViewFill(img, tab, freeblock, logged, inum, k);
        x := freeblock;
        freeblock, usedblocks := freeblock + 1, usedblocks + 1;
        ok := x < |img|;
        if ok {
          logged := logged + {BITMAP} + {x};
          ViewBlock(img, tab, freeblock, logged, ind);
          ViewSet(img, tab, freeblock, logged, ind, SetWord(img[ind], j, x));
          GetSetWord(img[ind], j, x, j);
          img := img[ind := SetWord(img[ind], j, x)];
          logged := logged + {ind};
          ViewBlock(img, tab, freeblock, logged, ind);
        }
      } else {
        ok := true;
        FillKeeps(V(), inum, k);
      }
    }
  }

  // ----- The files of an image -----

  function Nothing(): seq<seq<Byte>> {
    seq(SB.ninodes, _ => [])
  }

  /** Byte o of a file that continues with zeros. */
  function At(bs: seq<Byte>, o: nat): Byte {
    if o < |bs| then bs[o] else 0
  }

  /** Inode i and its file are in order, and the file is bs followed by zeros. */
  ghost predicate HoldsFile(f: Fs, i: nat, bs: seq<Byte>)
    requires Shape(f) && i < f.sb.ninodes
  {
    && f.tab[i].size == |bs| <= MAXFILE * BSIZE && Mapped(f, i) && Synced(f, i)
    && forall o :: 0 <= o < MAXFILE * BSIZE ==> Peek(f, i, o) == At(bs, o)
  }

  ghost predicate Holding(f: Fs, owner: map<nat, Slot>, contents: seq<seq<Byte>>) {
    && Owned(f, owner) && f.sb == SB && |contents| == SB.ninodes
    && forall i :: 0 <= i < SB.ninodes ==> HoldsFile(f, i, contents[i])
  }

  /** p at the end of file i. */
  function Grown(contents: seq<seq<Byte>>, i: nat, p: seq<Byte>): seq<seq<Byte>>
    requires i < |contents|
  {
    contents[i := contents[i] + p]
  }

  lemma GrownNone(contents: seq<seq<Byte>>, i: nat, chunks: seq<seq<Byte>>)
    requires i < |contents|
    ensures Grown(contents, i, Joined(chunks[..0])) == contents
  {
    assert contents[i] + [] == contents[i];
  }

  lemma GrownNext(contents: seq<seq<Byte>>, i: nat, chunks: seq<seq<Byte>>, k: nat)
    requires i < |contents| && k < |chunks|
    ensures i < |Grown(contents, i, Joined(chunks[..k]))|
    ensures var c := Grown(Grown(contents, i, Joined(chunks[..k])), i, chunks[k]);
            && c == Grown(contents, i, Joined(chunks[..k + 1]))
            && (Fits(Grown(contents, i, Joined(chunks))) ==> Fits(c))
  {
    assert chunks[..k + 1][..k] == chunks[..k];
    var a, b := Joined(chunks[..k]), chunks[k];
    assert contents[i] + a + b == contents[i] + (a + b);
    JoinedGrows(chunks, k + 1);
    FitsWithin(Grown(contents, i, Joined(chunks[..k + 1])), Grown(contents, i, Joined(chunks)));
  }

  lemma KindsSame(a: seq<Inode>, b: seq<Inode>, c: seq<Inode>)
    ensures SameKinds(a, a)
    ensures SameKinds(a, b) && SameKinds(b, c) ==> SameKinds(a, c)
  {
  }

  predicate SameKinds(a: seq<Inode>, b: seq<Inode>) {
    |a| == |b| && forall i :: 0 <= i < |a| ==> a[i].kind == b[i].kind && a[i].links == b[i].links
  }

  lemma HoldingInode(f: Fs, owner: map<nat, Slot>, contents: seq<seq<Byte>>, i: nat)
    requires Holding(f, owner, contents) && i < SB.ninodes
    ensures Owned(f, owner) && |contents| == SB.ninodes && Dinode(f, i) == f.tab[i]
    ensures f.tab[i].size == |contents[i]| && MappedTo(f, i, |contents[i]|)
  {
    assert HoldsFile(f, i, contents[i]);
  }

  lemma EmptyInode(f: Fs, owner: map<nat, Slot>, contents: seq<seq<Byte>>, i: nat)
    requires Holding(f, owner, contents) && i < SB.ninodes && contents[i] == []
    ensures f.tab[i].size == 0 && f.tab[i].addrs == ZeroInode().addrs
  {
    assert HoldsFile(f, i, contents[i]);
    forall k | 0 <= k <= INDIRECT ensures f.tab[i].addrs[k] == 0 {
      assert Ref(f, i, k) == f.tab[i].addrs[k];
      assert !NeededBy(0, k);
    }
  }

  lemma EmptyHolds(img: seq<Block>, tab: seq<Inode>)
    requires img == seq(SB.size, _ => Zero())[1 := SuperBlock()] && tab == seq(SB.ninodes, _ => ZeroInode())
    ensures Img(img, tab, DATA) && Holding(View(img, tab, DATA, {}), map[], Nothing())
  {
    hide PutWords, FirstBits, Zero, Used;
    var f := View(img, tab, DATA, {});
    forall b | 0 <= b < SB.size ensures Used(f, b) <==> b < DATA {
      ViewUsed(img, tab, DATA, {}, b);
    }
    assert Owned(f, map[]);
    forall i | 0 <= i < SB.ninodes ensures HoldsFile(f, i, []) {
      ZeroDinode(f, i);
      assert forall l :: 0 <= l < SLOTS ==> !NeededBy(0, l);
    }
  }

  lemma ZeroDinode(f: Fs, i: nat)
    requires Shape(f) && i < f.sb.ninodes && f.blk[f.sb.IBlock(i)] == Zero()
    ensures Dinode(f, i) == ZeroInode()
  {
    InodeInside(f.sb, i);
    var at := 16 * (i % IPB);
    var ws: seq<Word> := [0, 0, 0] + ZeroInode().addrs;
    forall k | 0 <= k < 16 ensures GetWord(Zero(), at + k) == ws[k] {
      ZeroWord(at + k);
    }
    SameWords(Zero(), at, 16, ws);
  }

  /** winode */
  function SetInode(f: Fs, i: nat, x: Inode): (g: Fs)
    requires Shape(f) && i < f.sb.ninodes && |x.addrs| == NDIRECT + 1
    ensures Shape(g) && g.sb == f.sb && g.tab == f.tab[i := x]
  {
    Iupdate(f.(tab := f.tab[i := x]), i)
  }

  /** Only the inode on disk and its fields other than the block numbers change. */
  lemma SetInodeSame(f: Fs, owner: map<nat, Slot>, i: nat, x: Inode)
    requires Owned(f, owner) && i < f.sb.ninodes && x.addrs == f.tab[i].addrs
    ensures var g := SetInode(f, i, x);
            && Owned(g, owner) && SamePeeks(f, g) && Synced(g, i)
            && (forall j, l :: 0 <= j < f.sb.ninodes && 0 <= l < SLOTS ==> Ref(g, j, l) == Ref(f, j, l))
            && (forall j :: 0 <= j < f.sb.ninodes && j != i && Synced(f, j) ==> Synced(g, j))
  {
    var h := f.(tab := f.tab[i := x]);
    RetabOwned(f, h, owner);
    IupdateOwned(h, owner, i);
    hide Ref, Peek, Owned, Iupdate, Dinode;
    forall j | 0 <= j < f.sb.ninodes ensures Dinode(Iupdate(h, i), j) == if j == i then x else Dinode(f, j) {
      IupdateSync(h, i, j);
      SameDinode(f, h, j);
    }
  }

  lemma RetabOwned(f: Fs, h: Fs, owner: map<nat, Slot>)
    requires Owned(f, owner) && Shape(h) && h.sb == f.sb && h.blk == f.blk
    requires forall j :: 0 <= j < f.sb.ninodes ==> h.tab[j].addrs == f.tab[j].addrs
    ensures Owned(h, owner) && SamePeeks(f, h)
    ensures forall j, l :: 0 <= j < f.sb.ninodes && 0 <= l < SLOTS ==> Ref(h, j, l) == Ref(f, j, l)
  {
    forall j, l | 0 <= j < f.sb.ninodes && 0 <= l < SLOTS ensures Ref(h, j, l) == Ref(f, j, l) {
    }
    hide Ref;
    forall b | b in owner ensures OwnedBlock(h, owner[b], b) {
      assert OwnedBlock(f, owner[b], b);
    }
    forall b | 0 <= b < f.sb.size ensures Used(h, b) == Used(f, b) {
    }
  }

  lemma RetagHolds(f: Fs, owner: map<nat, Slot>, contents: seq<seq<Byte>>, i: nat, x: Inode)
    requires Holding(f, owner, contents) && i < SB.ninodes && x.addrs == f.tab[i].addrs && x.size == f.tab[i].size
    ensures Holding(SetInode(f, i, x), owner, contents)
  {
    hide Owned, SetInode, Ref, Peek, NeededBy, Synced;
    OwnedShape(f, owner);
    SetInodeSame(f, owner, i, x);
    var g := SetInode(f, i, x);
    forall j | 0 <= j < SB.ninodes ensures HoldsFile(g, j, contents[j]) {
      assert HoldsFile(f, j, contents[j]);
    }
  }

  lemma AppendStep(f: Fs, i: nat, off: nat, p: seq<Byte>)
    requires Shape(f) && i < f.sb.ninodes && p != []
    ensures var g := WriteChunk(f, i, off, p);
            var m := Chunk(off, |p|);
            WriteAll(f, i, off, p) == if g.None? then None else WriteAll(g.value, i, off + m, p[m..])
  {
  }

  // ----- What a file costs -----

  /** How many blocks bmap hands out for file block bn. */
  function Cost(f: Fs, i: nat, bn: nat): nat
    requires Shape(f) && i < f.sb.ninodes
  {
    if bn >= MAXFILE then 0
    else
      (if Ref(f, i, SlotOf(bn)) == 0 then 1 else 0)
      + if bn >= NDIRECT && Ref(f, i, INDIRECT) == 0 then 1 else 0
  }

  /** The first size bytes of the file have blocks, and no others. */
  ghost predicate MappedTo(f: Fs, i: nat, size: nat)
    requires Shape(f) && i < f.sb.ninodes
  {
    forall l :: 0 <= l < SLOTS ==> (Ref(f, i, l) != 0 <==> NeededBy(size, l))
  }

  lemma ChunkCost(f: Fs, i: nat, off: nat, n: nat)
    requires Shape(f) && i < f.sb.ninodes && n > 0 && MappedTo(f, i, off)
    ensures off / BSIZE < MAXFILE ==> Cost(f, i, off / BSIZE) == NBlocks(off + Chunk(off, n)) - NBlocks(off)
  {
    hide Ref, NeededBy;
    var bn := off / BSIZE;
    if bn < MAXFILE {
      NeededData(off, bn);
      NeededIndirect(off);
      assert Ref(f, i, SlotOf(bn)) != 0 <==> bn * BSIZE < off;
      assert Ref(f, i, INDIRECT) != 0 <==> off > NDIRECT * BSIZE;
      ChunkBlocks(off, n);
    }
  }

  lemma ChunkBlocks(off: nat, n: nat)
    requires n > 0
    ensures var bn := off / BSIZE;
            NBlocks(off + Chunk(off, n)) - NBlocks(off) ==
              (if bn * BSIZE < off then 0 else 1) + if bn >= NDIRECT && off <= NDIRECT * BSIZE then 1 else 0
  {
  }

  lemma ChunkEnd(off: nat, n: nat)
    requires n > 0
    ensures off / BSIZE < MAXFILE ==> off + Chunk(off, n) <= MAXFILE * BSIZE
    ensures off / BSIZE >= MAXFILE ==> off + n > MAXFILE * BSIZE
  {
  }

  lemma ChunkMapped(f: Fs, owner: map<nat, Slot>, i: nat, off: nat, p: seq<Byte>)
    requires Owned(f, owner) && i < f.sb.ninodes && p != [] && MappedTo(f, i, off) && WriteChunk(f, i, off, p).Some?
    ensures MappedTo(WriteChunk(f, i, off, p).value, i, off + Chunk(off, |p|))
  {
    hide Ref, Owned, WriteChunk, NeededBy, Touched, Needs;
    OwnedShape(f, owner);
    var g, m := WriteChunk(f, i, off, p).value, Chunk(off, |p|);
    forall l | 0 <= l < SLOTS ensures Ref(g, i, l) != 0 <==> NeededBy(off + m, l) {
      WriteChunkRef(f, owner, i, off, p, i, l);
      NeededGrows(off, off, m, l);
      TouchedSplit(off, m, l);
      TouchedNone(off + m, l);
    }
  }

  /** There is room for these files on the disk. */
  predicate Fits(c: seq<seq<Byte>>) {
    DATA + Total(c) <= SB.size && forall i :: 0 <= i < |c| ==> |c[i]| <= MAXFILE * BSIZE
  }

  predicate Within(a: seq<seq<Byte>>, b: seq<seq<Byte>>) {
    |a| == |b| && forall i :: 0 <= i < |a| ==> |a[i]| <= |b[i]|
  }

  lemma {:induction false} TotalWithin(a: seq<seq<Byte>>, b: seq<seq<Byte>>)
    requires Within(a, b)
    ensures Total(a) <= Total(b)
  {
    if a != [] {
      var m := |a| - 1;
      TotalWithin(a[..m], b[..m]);
      NBlocksGrows(|a[m]|, |b[m]|);
    }
  }

  lemma FitsWithin(a: seq<seq<Byte>>, b: seq<seq<Byte>>)
    requires Within(a, b)
    ensures Fits(b) ==> Fits(a)
  {
    TotalWithin(a, b);
  }

  lemma FitsAppend(f: Fs, owner: map<nat, Slot>, c: seq<seq<Byte>>, i: nat, p: seq<Byte>)
    requires Holding(f, owner, c) && i < SB.ninodes
    ensures var d := Grown(c, i, p);
            && Total(d) == Total(c) + NBlocks(|c[i]| + |p|) - NBlocks(|c[i]|)
            && (Fits(d) <==> DATA + Total(d) <= SB.size && |c[i]| + |p| <= MAXFILE * BSIZE)
  {
    TotalSet(c, i, c[i] + p);
    var d := c[i := c[i] + p];
    forall j | 0 <= j < |d| && j != i ensures |d[j]| <= MAXFILE * BSIZE {
      assert HoldsFile(f, j, c[j]);
    }
    assert |d[i]| == |c[i]| + |p|;
  }

  lemma HoldingFits(img: seq<Block>, tab: seq<Inode>, fb: nat, logged: set<nat>, owner: map<nat, Slot>, c: seq<seq<Byte>>)
    requires Img(img, tab, fb) && Holding(View(img, tab, fb, logged), owner, c) && fb == DATA + Total(c)
    ensures Fits(c)
  {
    forall i | 0 <= i < |c| ensures |c[i]| <= MAXFILE * BSIZE {
      assert HoldsFile(View(img, tab, fb, logged), i, c[i]);
    }
  }

  lemma {:induction false} EmptyTotal(n: nat)
    ensures Total(seq(n, _ => [])) == 0
  {
    if n > 0 {
      EmptyTotal(n - 1);
      var c: seq<seq<Byte>> := seq(n, _ => []);
      var d: seq<seq<Byte>> := seq(n - 1, _ => []);
      assert c[..n - 1] == d;
    }
  }

  lemma NothingTotal()
    ensures Total(Nothing()) == 0
  {
    EmptyTotal(SB.ninodes);
  }

  lemma {:induction false} JoinedGrows(chunks: seq<seq<Byte>>, k: nat)
    requires k <= |chunks|
    ensures |Joined(chunks[..k])| <= |Joined(chunks)|
    decreases |chunks| - k
  {
    if k < |chunks| {
      JoinedGrows(chunks, k + 1);
      assert chunks[..k + 1][..k] == chunks[..k];
    } else {
      assert chunks[..k] == chunks;
    }
  }

  lemma WantedGrows(files: seq<File>, k: nat)
    requires k <= |files| <= SB.ninodes - 2
    ensures Within(Wanted(files[..k]), Wanted(files))
  {
    var a, b := Wanted(files[..k]), Wanted(files);
    forall i | 0 <= i < SB.ninodes ensures |a[i]| <= |b[i]| {
      if i == ROOT {
        assert a[i] == Entries(files[..k]) && b[i] == Entries(files);
      }
    }
  }

  lemma AppendDone(f: Fs, i: nat, off: nat)
    requires Shape(f) && i < f.sb.ninodes
    ensures WriteAll(f, i, off, []) == Some(f)
  {
  }

  /** iappend stops at its assertion or goes no further than the largest file. */
  lemma {:induction false} AppendFits(f: Fs, i: nat, off: nat, p: seq<Byte>)
    requires Shape(f) && i < f.sb.ninodes && p != [] && WriteAll(f, i, off, p).Some?
    ensures off + |p| <= MAXFILE * BSIZE
    decreases |p|
  {
    hide Bmap, Patch, Ref;
    var m := Chunk(off, |p|);
    if p[m..] != [] {
      AppendFits(WriteChunk(f, i, off, p).value, i, off + m, p[m..]);
    }
  }

  lemma AppendHolds(f: Fs, owner: map<nat, Slot>, contents: seq<seq<Byte>>, i: nat, p: seq<Byte>, g: Fs)
    returns (owner': map<nat, Slot>)
    requires Holding(f, owner, contents) && i < SB.ninodes && WriteAll(f, i, |contents[i]|, p) == Some(g)
    ensures |contents[i]| + |p| <= MAXFILE * BSIZE
    ensures var h := SetInode(g, i, g.tab[i].(size := |contents[i]| + |p|));
            && Holding(h, owner', Grown(contents, i, p)) && SameKinds(f.tab, h.tab)
            && (p != [] ==> Writei(f, i, |contents[i]|, p) == Some((h, |p|)))
  {
    hide Owned, Ref, Peek, Mapped, Synced, WriteAll, Iupdate;
    OwnedShape(f, owner);
    assert HoldsFile(f, i, contents[i]);
    if p != [] {
      AppendFits(f, i, |contents[i]|, p);
    }
    owner' := WriteAllSplices(f, owner, i, |contents[i]|, p);
    var x := g.tab[i].(size := |contents[i]| + |p|);
    if p == [] {
      AppendDone(f, i, |contents[i]|);
      assert contents[i] + p == contents[i] && contents[i := contents[i]] == contents;
      owner' := owner;
      RetagHolds(f, owner, contents, i, x);
    } else {
      var h := SetInode(g, i, x);
      assert Writei(f, i, |contents[i]|, p) == Some((h, |p|));
      SetInodeSame(g, owner', i, x);
      var contents' := contents[i := contents[i] + p];
      forall j | 0 <= j < SB.ninodes ensures HoldsFile(h, j, contents'[j]) {
        assert HoldsFile(f, j, contents[j]);
        HoldingSizes(f, owner, contents);
        WriteiMapped(f, owner, i, |contents[i]|, p, j);
        WriteiSynced(f, owner, i, |contents[i]|, p, j);
        AppendPeeks(f, g, h, i, contents[i], p, j, contents[j]);
      }
    }
  }

  lemma HoldingSizes(f: Fs, owner: map<nat, Slot>, contents: seq<seq<Byte>>)
    requires Holding(f, owner, contents)
    ensures Shape(f) && SizesOk(f)
  {
    forall i | 0 <= i < f.sb.ninodes ensures f.tab[i].size <= MAXFILE * BSIZE {
      assert HoldsFile(f, i, contents[i]);
    }
  }

  lemma AppendPeeks(f: Fs, g: Fs, h: Fs, i: nat, bs: seq<Byte>, p: seq<Byte>, j: nat, cs: seq<Byte>)
    requires Shape(f) && Shape(g) && Shape(h) && g.sb == f.sb && h.sb == f.sb && j < f.sb.ninodes
    requires Spliced(f, g, i, |bs|, p) && SamePeeks(g, h) && (i == j ==> bs == cs)
    requires forall o :: 0 <= o < MAXFILE * BSIZE ==> Peek(f, j, o) == At(cs, o)
    ensures forall o :: 0 <= o < MAXFILE * BSIZE ==> Peek(h, j, o) == At(if i == j then cs + p else cs, o)
  {
    hide Peek;
  }

  // ----- The whole program -----

  /** An argument of mkfs: its name, and the buffers read returns for it. */
  datatype File = File(name: seq<Byte>, chunks: seq<seq<Byte>>)

  function Joined(chunks: seq<seq<Byte>>): seq<Byte> {
    if chunks == [] then [] else Joined(chunks[..|chunks| - 1]) + chunks[|chunks| - 1]
  }

  /** A leading underscore is dropped. */
  function EntryName(name: seq<Byte>): seq<Byte> {
    if name != [] && name[0] == 95 then name[1..] else name
  }

  /** strncpy(de.name, name, DIRSIZ) into zeros */
  function Padded(name: seq<Byte>): (r: seq<Byte>)
    ensures |r| == DIRSIZ
  {
    if |name| >= DIRSIZ then name[..DIRSIZ] else name + seq(DIRSIZ - |name|, _ => 0)
  }

  function Dirent(inum: nat, name: seq<Byte>): (r: seq<Byte>)
    requires inum < 0x1_0000
    ensures |r| == 2 + DIRSIZ
  {
    [inum % 0x100, inum / 0x100] + Padded(name)
  }

  function Added(contents: seq<seq<Byte>>, inum: nat, file: File): seq<seq<Byte>>
    requires ROOT < inum < |contents| < 0x1_0000
  {
    var c := contents[ROOT := contents[ROOT] + Dirent(inum, EntryName(file.name))];
    c[inum := c[inum] + Joined(file.chunks)]
  }

  /** The root directory: itself twice, then one entry a file. */
  function Entries(files: seq<File>): (r: seq<Byte>)
    requires |files| < 1000
    ensures |r| == (2 + |files|) * (2 + DIRSIZ)
  {
    if files == [] then Dirent(ROOT, [46]) + Dirent(ROOT, [46, 46])
    else Entries(files[..|files| - 1]) + Dirent(|files| + 1, EntryName(files[|files| - 1].name))
  }

  /** What each inode holds: the directory in 1, the files from 2 on. */
  function Wanted(files: seq<File>): (c: seq<seq<Byte>>)
    requires |files| <= SB.ninodes - 2
    ensures |c| == SB.ninodes
  {
    seq(SB.ninodes, i requires 0 <= i =>
      if i == ROOT then Entries(files) else if 2 <= i < 2 + |files| then Joined(files[i - 2].chunks) else [])
  }

  lemma WantedNext(files: seq<File>, k: nat)
    requires k < |files| <= SB.ninodes - 2
    ensures Added(Wanted(files[..k]), k + 2, files[k]) == Wanted(files[..k + 1])
  {
    var fs := files[..k + 1];
    assert fs[..k] == files[..k] && fs[k] == files[k];
    var a, b := Added(Wanted(files[..k]), k + 2, files[k]), Wanted(files[..k + 1]);
    forall i | 0 <= i < SB.ninodes ensures a[i] == b[i] {
      if i == ROOT {
        assert Entries(fs) == Entries(fs[..k]) + Dirent(k + 2, EntryName(fs[k].name));
      } else if i == k + 2 {
        assert [] + Joined(files[k].chunks) == Joined(files[k].chunks);
      }
    }
  }

  function Kind(files: seq<File>, i: nat): Word {
    if i == ROOT then T_DIR else if 2 <= i < 2 + |files| then T_FILE else 0
  }

  /** The bytes of a file and zeros up to the next multiple of the block size. */
  function RoundUp(bs: seq<Byte>): seq<Byte> {
    bs + seq(BSIZE - |bs| % BSIZE, _ => 0)
  }

  /** All files in order but for the size of the root directory, which has no blocks for
      more than its entries. */
  ghost predicate Rounded(f: Fs, owner: map<nat, Slot>, contents: seq<seq<Byte>>) {
    && Owned(f, owner) && f.sb == SB && |contents| == SB.ninodes && SizesOk(f)
    && (forall i :: 0 <= i < SB.ninodes ==> RoundedFile(f, i, contents[i]))
    && (Mapped(f, ROOT) <==> |contents[ROOT]| % BSIZE != 0)
  }

  ghost predicate RoundedFile(f: Fs, i: nat, bs: seq<Byte>)
    requires Shape(f) && SizesOk(f) && i < f.sb.ninodes
  {
    && Synced(f, i) && Bytes(f, i) == (if i == ROOT then RoundUp(bs) else bs) && MappedTo(f, i, |bs|)
    && forall o :: 0 <= o < MAXFILE * BSIZE ==> Peek(f, i, o) == At(bs, o)
  }

  lemma RoundedSize(n: nat)
    ensures (n / BSIZE + 1) * BSIZE == n + (BSIZE - n % BSIZE)
  {
  }

  lemma RoundHolds(f: Fs, owner: map<nat, Slot>, contents: seq<seq<Byte>>)
    requires Holding(f, owner, contents) && |contents[ROOT]| < (MAXFILE - 1) * BSIZE
    ensures f.tab[ROOT].size == |contents[ROOT]| && (|contents[ROOT]| / BSIZE + 1) * BSIZE <= MAXFILE * BSIZE
    ensures var x := f.tab[ROOT].(size := (|contents[ROOT]| / BSIZE + 1) * BSIZE);
            Rounded(SetInode(f, ROOT, x), owner, contents)
  {
    hide Owned, SetInode, Ref, Peek, NeededBy, Synced, Mapped;
    OwnedShape(f, owner);
    var n := |contents[ROOT]|;
    assert HoldsFile(f, ROOT, contents[ROOT]);
    RoundedSize(n);
    var x := f.tab[ROOT].(size := (n / BSIZE + 1) * BSIZE);
    SetInodeSame(f, owner, ROOT, x);
    var g := SetInode(f, ROOT, x);
    HoldingSizes(f, owner, contents);
    forall i | 0 <= i < SB.ninodes ensures RoundedFile(g, i, contents[i]) {
      assert HoldsFile(f, i, contents[i]);
      assert Bytes(g, i) == if i == ROOT then RoundUp(contents[i]) else contents[i];
      SameMapped(f, g, i);
    }
    RoundedRoot(f, g, n);
  }

  lemma SameMapped(f: Fs, g: Fs, i: nat)
    requires Shape(f) && Shape(g) && f.sb == g.sb && i < f.sb.ninodes && Mapped(f, i)
    requires forall j, l :: 0 <= j < f.sb.ninodes && 0 <= l < SLOTS ==> Ref(g, j, l) == Ref(f, j, l)
    ensures MappedTo(g, i, f.tab[i].size)
  {
    hide Ref, NeededBy;
  }

  /** The last block of a rounded directory is there exactly if the entries did not end
      at a block boundary. */
  lemma RoundedRoot(f: Fs, g: Fs, n: nat)
    requires Shape(f) && Shape(g) && f.sb == SB && g.sb == SB && Mapped(f, ROOT) && f.tab[ROOT].size == n
    requires g.tab[ROOT].size == (n / BSIZE + 1) * BSIZE <= MAXFILE * BSIZE
    requires forall j, l :: 0 <= j < f.sb.ninodes && 0 <= l < SLOTS ==> Ref(g, j, l) == Ref(f, j, l)
    ensures Mapped(g, ROOT) <==> n % BSIZE != 0
  {
    hide Ref, Needs;
    var size := (n / BSIZE + 1) * BSIZE;
    var bn := n / BSIZE;
    if n % BSIZE == 0 {
      var l := SlotOf(bn);
      assert InFile(size, bn);
      NeedsSelf(bn);
      assert NeededBy(size, l);
      assert !NeededBy(n, l) by {
        if NeededBy(n, l) {
          var b :| 0 <= b && InFile(n, b) && Needs(b, l);
          NeedsData(b, bn);
        }
      }
    } else {
      forall l | 0 <= l < SLOTS ensures NeededBy(size, l) <==> NeededBy(n, l) {
        if NeededBy(size, l) {
          var b :| 0 <= b && InFile(size, b) && Needs(b, l);
          assert InFile(n, b);
        }
        if NeededBy(n, l) {
          var b :| 0 <= b && InFile(n, b) && Needs(b, l);
          assert InFile(size, b);
        }
      }
    }
  }

  /** The file system a kernel finds when it boots from the image. */
  function Mounted(img: seq<Block>): (f: Fs)
    requires Disk(img)
    ensures Shape(f) && f.sb == Readsb(img[1]) && f.blk == img
  {
    Mount(Readsb(img[1]), img)
  }

  /** The image of these files: every block has at most one owner and the bitmap is exact,
      every inode holds its bytes, the root lists every file under its number. A file has
      blocks for exactly its size; the root has, except when its entries filled their last
      block. */
  ghost predicate ImageOf(f: Fs, owner: map<nat, Slot>, files: seq<File>)
    requires |files| <= SB.ninodes - 2
  {
    Rounded(f, owner, Wanted(files)) && Kinds(f.tab, files)
  }

  /** mkfs. It succeeds exactly when no file is too large and the blocks suffice. It does
      not count its inodes; there are 198 for files. Where the files end before the log,
      the log is empty. */
  method MakeImage(files: seq<File>) returns (ok: bool, img: seq<Block>)
    requires |files| <= SB.ninodes - 2
    ensures ok <==> Fits(Wanted(files))
    ensures ok ==> |img| == SB.size && Readsb(img[1]) == SB && GetWord(img[1], 1) == SB.size - DATA - SB.nlog
    ensures ok ==> exists owner :: ImageOf(Mounted(img), owner, files)
    ensures ok ==> UsedBelow(Mounted(img), DATA + Total(Wanted(files))) && ZeroFrom(img, DATA + Total(Wanted(files)))
    ensures ok && DATA + Total(Wanted(files)) <= SB.LogStart() ==> Recovery.Clean(LogOf(Readsb(img[1])), img)
  {
    hide Holding, Img, View, Wanted, SuperBlock, Total, Fits, ImageOf, UsedBelow, Mounted, Kinds, SameKinds, ZeroFrom;
    var b := new Builder();
    ghost var owner;
    WantedGrows(files, 0);
    FitsWithin(Wanted(files[..0]), Wanted(files));
    ok, owner := b.MakeRoot();
    img := b.img;
    if !ok {
      return;
    }
    var k := 0;
    while k < |files|
      invariant 0 <= k <= |files| && b.Sound() && b.freeinode == k + 2 && Holding(b.V(), owner, Wanted(files[..k]))
      invariant Kinds(b.tab, files[..k]) && b.freeblock == DATA + Total(Wanted(files[..k]))
      modifies b
    {
      WantedEmpty(files, k);
      WantedNext(files, k);
      WantedGrows(files, k + 1);
      FitsWithin(Wanted(files[..k + 1]), Wanted(files));
      ghost var was := b.tab;
      ok, owner := b.AddFile(files[k], owner, Wanted(files[..k]));
      if !ok {
        return;
      }
      KindsNext(was, b.tab, files, k);
      k := k + 1;
    }
    assert files[..k] == files;
    b.Finish(owner, files);
    img := b.img;
    ok := true;
    SuperRead();
    ZeroLog(img, DATA + Total(Wanted(files)));
  }

  /** The bitmap marks the first n blocks. */
  ghost predicate UsedBelow(f: Fs, n: nat)
    requires Shape(f)
  {
    forall b :: 0 <= b < f.sb.size ==> (Used(f, b) <==> b < n)
  }

  lemma ImageUsed(img: seq<Block>, fb: nat)
    requires Disk(img) && fb <= SB.size && img[BITMAP] == FirstBits(fb)
    ensures UsedBelow(Mounted(img), fb)
  {
    hide Dinode, FirstBits, GetBit;
    forall b | 0 <= b < SB.size ensures Used(Mounted(img), b) <==> b < fb {
      GetFirstBits(fb, b);
    }
  }

  /** Nothing was written from block n on. */
  ghost predicate ZeroFrom(img: seq<Block>, n: nat) {
    forall b :: n <= b < |img| ==> img[b] == Zero()
  }

  lemma ImgZero(img: seq<Block>, tab: seq<Inode>, fb: nat, x: Block)
    requires Img(img, tab, fb)
    ensures ZeroFrom(img[BITMAP := x], fb)
  {
  }

  lemma ZeroLog(img: seq<Block>, n: nat)
    requires |img| == SB.size && ZeroFrom(img, n)
    ensures n <= LOG.start ==> Recovery.Clean(LOG, img)
  {
    ZeroWord(0);
  }

  /** mkfs leaves the bits of the log clear and balloc does not look where the log begins:
      it hands out a block of the log exactly when no block before the log is free and one
      of the log is. */
  lemma BallocInLog(f: Fs)
    requires Shape(f)
    ensures f.sb.LogStart() <= FirstFree(f, 0) < f.sb.size <==>
              && (forall b :: 0 <= b < f.sb.LogStart() ==> Used(f, b))
              && exists b :: f.sb.LogStart() <= b < f.sb.size && !Used(f, b)
  {
    hide Used;
    var x := FirstFree(f, 0);
    if x < f.sb.size {
      assert !Used(f, x);
    }
  }

  /** So it is with the image of files that take 985 blocks: the next block is the log's
      header. */
  lemma LogTaken(f: Fs, owner: map<nat, Slot>, files: seq<File>)
    requires |files| <= SB.ninodes - 2 && ImageOf(f, owner, files) && UsedBelow(f, DATA + Total(Wanted(files)))
    requires Total(Wanted(files)) == 985
    ensures FirstFree(f, 0) == f.sb.LogStart()
  {
    hide Used, Owned, Wanted, Total;
    OwnedShape(f, owner);
    assert !Used(f, f.sb.LogStart());
    BallocInLog(f);
  }

  /** The blocks of the root directory and of each file. */
  function FileBlocks(files: seq<File>): nat {
    if files == [] then 0 else FileBlocks(files[..|files| - 1]) + NBlocks(|Joined(files[|files| - 1].chunks)|)
  }

  lemma {:induction false} WantedTotal(files: seq<File>)
    requires |files| <= SB.ninodes - 2
    ensures Total(Wanted(files)) == NBlocks((2 + |files|) * 16) + FileBlocks(files)
  {
    hide Total, Wanted, NBlocks, Joined, Entries, Dirent;
    NoBlocks();
    if files == [] {
      NothingTotal();
      TotalSet(Nothing(), ROOT, Entries([]));
      NothingWanted();
    } else {
      var m := |files| - 1;
      WantedTotal(files[..m]);
      WantedNext(files, m);
      assert files[..m + 1] == files;
      var c := Wanted(files[..m]);
      WantedAt(files[..m], m + 2);
      TotalSet(c, ROOT, c[ROOT] + Dirent(m + 2, EntryName(files[m].name)));
      TotalSet(c[ROOT := c[ROOT] + Dirent(m + 2, EntryName(files[m].name))], m + 2, [] + Joined(files[m].chunks));
    }
  }

  lemma NoBlocks()
    ensures NBlocks(0) == 0
  {
  }

  lemma NothingWanted()
    ensures Wanted([]) == Nothing()[ROOT := Entries([])] && Nothing()[ROOT] == []
  {
  }

  lemma WantedAt(files: seq<File>, i: nat)
    requires |files| <= SB.ninodes - 2 && 2 + |files| <= i < SB.ninodes
    ensures Wanted(files)[i] == [] && |Wanted(files)[ROOT]| == (2 + |files|) * 16
  {
    assert Wanted(files)[ROOT] == Entries(files);
  }

  /** A file of size bytes, all 1. */
  function Ones(size: nat): File {
    File([97], [seq(size, _ => 1)])
  }

  function Copies(n: nat, size: nat): (files: seq<File>)
    ensures |files| == n && forall i :: 0 <= i < n ==> files[i] == Ones(size)
  {
    seq(n, _ => Ones(size))
  }

  lemma OnesBytes(size: nat)
    ensures Joined(Ones(size).chunks) == seq(size, _ => 1)
  {
    var x: seq<seq<Byte>> := [seq(size, _ => 1)];
    assert x[..0] == [];
    assert Joined(x) == Joined(x[..0]) + x[0];
  }

  lemma Times(n: nat, k: nat)
    requires n > 0
    ensures n * k == (n - 1) * k + k
  {
  }

  lemma {:induction false} CopiesBlocks(n: nat, size: nat)
    ensures FileBlocks(Copies(n, size)) == n * NBlocks(size)
  {
    hide NBlocks, Ones;
    if n > 0 {
      CopiesBlocks(n - 1, size);
      OnesBytes(size);
      assert Copies(n, size)[..n - 1] == Copies(n - 1, size);
      Times(n, NBlocks(size));
    }
  }

  lemma WantedFits(files: seq<File>)
    requires |files| <= SB.ninodes - 2 && DATA + Total(Wanted(files)) <= SB.size
    requires forall i :: 0 <= i < |files| ==> |Joined(files[i].chunks)| <= MAXFILE * BSIZE
    ensures Fits(Wanted(files))
  {
    hide Total, Joined;
    WantedRoot(files);
  }

  /** Files with 985 blocks: the root's one, six of 141 blocks, one of 138. */
  function Filling(): (files: seq<File>)
    ensures |files| == 7
  {
    Copies(6, 71680) + [Ones(70144)]
  }

  /** These are such files. */
  lemma FillingTaken(f: Fs, owner: map<nat, Slot>)
    requires ImageOf(f, owner, Filling()) && UsedBelow(f, DATA + Total(Wanted(Filling())))
    ensures Fits(Wanted(Filling())) && FirstFree(f, 0) == f.sb.LogStart()
  {
    hide ImageOf, UsedBelow, Wanted, Total, Fits;
    FillingTotal();
    LogTaken(f, owner, Filling());
  }

  lemma FillingTotal()
    ensures Total(Wanted(Filling())) == 985 && Fits(Wanted(Filling()))
  {
    hide Total, Wanted, Copies, Ones, Fits;
    var files := Filling();
    WantedTotal(files);
    CopiesBlocks(6, 71680);
    assert files[..6] == Copies(6, 71680) && files[6] == Ones(70144);
    OnesBytes(71680);
    OnesBytes(70144);
    WantedFits(files);
  }

  lemma ImageMade(img: seq<Block>, f: Fs, owner: map<nat, Slot>, files: seq<File>, fb: nat)
    requires Disk(img) && |files| <= SB.ninodes - 2 && Rounded(f, owner, Wanted(files)) && f.blk == img
    requires Kinds(f.tab, files) && fb <= SB.size && img[BITMAP] == FirstBits(fb)
    ensures exists owner' :: ImageOf(Mounted(img), owner', files)
    ensures UsedBelow(Mounted(img), fb)
  {
    hide Rounded, Mounted, UsedBelow, Wanted;
    MountedSame(img, f, owner, Wanted(files));
    ImageUsed(img, fb);
    assert ImageOf(Mounted(img), owner, files);
  }

  predicate Kinds(tab: seq<Inode>, files: seq<File>) {
    && |tab| == SB.ninodes
    && forall i :: 0 <= i < SB.ninodes ==> tab[i].kind == Kind(files, i) && tab[i].links == if Kind(files, i) == 0 then 0 else ONE_LINK
  }

  lemma KindsRoot()
    ensures Kinds(seq(SB.ninodes, _ => ZeroInode())[ROOT := ZeroInode().(kind := T_DIR, links := ONE_LINK)], [])
  {
  }

  lemma KindsKept(was: seq<Inode>, tab: seq<Inode>, files: seq<File>)
    requires Kinds(was, files) && SameKinds(was, tab)
    ensures Kinds(tab, files)
  {
  }

  lemma KindsNext(was: seq<Inode>, tab: seq<Inode>, files: seq<File>, k: nat)
    requires k < |files| <= SB.ninodes - 2 && Kinds(was, files[..k])
    requires SameKinds(was[k + 2 := ZeroInode().(kind := T_FILE, links := ONE_LINK)], tab)
    ensures Kinds(tab, files[..k + 1])
  {
  }

  lemma ImgSize(img: seq<Block>, tab: seq<Inode>, fb: nat)
    requires Img(img, tab, fb)
    ensures |img| == SB.size && |tab| == SB.ninodes && img[1] == SuperBlock() && fb <= SB.size
  {
  }

  lemma WantedStart()
    ensures var c := Grown(Nothing(), ROOT, Dirent(ROOT, [46]));
            && |c| == SB.ninodes && Grown(c, ROOT, Dirent(ROOT, [46, 46])) == Wanted([])
            && (Fits(Wanted([])) ==> Fits(c))
  {
    var c := Grown(Nothing(), ROOT, Dirent(ROOT, [46]));
    var d := Grown(c, ROOT, Dirent(ROOT, [46, 46]));
    assert Nothing()[ROOT] + Dirent(ROOT, [46]) == Dirent(ROOT, [46]);
    assert d[ROOT] == Entries([]);
    forall i | 0 <= i < SB.ninodes ensures d[i] == Wanted([])[i] {
    }
    assert d == Wanted([]);
    FitsWithin(c, d);
  }

  lemma WantedEmpty(files: seq<File>, k: nat)
    requires k < |files| <= SB.ninodes - 2
    ensures Wanted(files[..k])[k + 2] == []
  {
  }

  lemma WantedRoot(files: seq<File>)
    requires |files| <= SB.ninodes - 2
    ensures |Wanted(files)[ROOT]| < (MAXFILE - 1) * BSIZE
  {
    assert Wanted(files)[ROOT] == Entries(files);
    assert (2 + |files|) * (2 + DIRSIZ) <= 200 * 16;
  }

  /** Booting reads back the inodes mkfs had written. */
  lemma MountedSame(img: seq<Block>, f: Fs, owner: map<nat, Slot>, contents: seq<seq<Byte>>)
    requires Disk(img) && Rounded(f, owner, contents) && f.blk == img
    ensures Rounded(Mounted(img), owner, contents) && Mounted(img).tab == f.tab
  {
    hide Dinode;
    var m := Mounted(img);
    var bare := Fs(SB, img, seq(SB.ninodes, _ => ZeroInode()), {});
    forall i | 0 <= i < SB.ninodes ensures m.tab[i] == f.tab[i] {
      assert RoundedFile(f, i, contents[i]);
      SameDinode(f, bare, i);
    }
    assert m.tab == f.tab;
    SameRounded(f, m, owner, contents);
  }

  lemma SameRounded(f: Fs, m: Fs, owner: map<nat, Slot>, contents: seq<seq<Byte>>)
    requires Rounded(f, owner, contents) && m == f.(logged := {})
    ensures Rounded(m, owner, contents)
  {
    hide Owned, Ref, RoundedFile, NeededBy, Peek, SamePeeks;
    OwnedShape(f, owner);
    RetabOwned(f, m, owner);
    forall i | 0 <= i < SB.ninodes ensures RoundedFile(m, i, contents[i]) {
      SameFile(f, m, i, contents[i]);
    }
  }

  lemma SameFile(f: Fs, m: Fs, i: nat, bs: seq<Byte>)
    requires Shape(f) && SizesOk(f) && i < f.sb.ninodes && RoundedFile(f, i, bs) && m == f.(logged := {}) && SamePeeks(f, m)
    requires forall j, l :: 0 <= j < f.sb.ninodes && 0 <= l < SLOTS ==> Ref(m, j, l) == Ref(f, j, l)
    ensures RoundedFile(m, i, bs)
  {
    hide Ref, Peek, NeededBy, Dinode;
    SameDinode(f, m, i);
    assert Bytes(m, i) == Bytes(f, i);
  }

  lemma ViewBlocks(img: seq<Block>, tab: seq<Inode>, fb: nat, logged: set<nat>)
    requires Img(img, tab, fb)
    ensures View(img, tab, fb, logged).blk == img[BITMAP := FirstBits(fb)]
  {
  }

  lemma ViewBlock(img: seq<Block>, tab: seq<Inode>, fb: nat, logged: set<nat>, b: nat)
    requires Img(img, tab, fb) && b < SB.size && b != BITMAP
    ensures View(img, tab, fb, logged).blk[b] == img[b]
  {
  }

  lemma DirectRef(f: Fs, i: nat, k: nat)
    requires Shape(f) && i < f.sb.ninodes && k <= INDIRECT
    ensures Ref(f, i, k) == f.tab[i].addrs[k]
  {
  }

  lemma ExtendsOwned(f: Fs, owner: map<nat, Slot>, g: Fs, owner': map<nat, Slot>, i: nat)
    requires Extends(f, owner, g, owner', i)
    ensures Owned(g, owner')
  {
  }

  lemma FillKeeps(f: Fs, i: nat, k: nat)
    requires Fill.requires(f, i, k) && Ref(f, i, k) != 0
    ensures Fill(f, i, k) == Some(f)
  {
  }
}
