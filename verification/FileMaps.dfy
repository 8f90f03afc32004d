/** Which blocks of a file are mapped, when the inode on disk is the one in memory, and
    which sectors a write logs. */
module FileMaps {
  import opened Blocks
  import opened Options
  import opened FileSystem
  import opened FileBytes
  import Recovery

  // ----- Exactly which slots get blocks -----

  lemma FillRef(f: Fs, owner: map<nat, Slot>, i: nat, k: nat, j: nat, l: nat)
    requires Owned(f, owner) && i < f.sb.ninodes && k < SLOTS && j < f.sb.ninodes && l < SLOTS
    requires k > INDIRECT ==> 0 < f.tab[i].addrs[INDIRECT] < f.sb.size
    ensures Fill(f, i, k).Some? && !(j == i && l == k) ==> Ref(Fill(f, i, k).value, j, l) == Ref(f, j, l)
    ensures Fill(f, i, k).Some? ==> Ref(Fill(f, i, k).value, i, k) != 0
  {
    hide Ref, Used, FirstFree, Allocate, Attach, Owned;
    OwnedShape(f, owner);
    if Ref(f, i, k) == 0 && FirstFree(f, 0) < f.sb.size {
      FreeIsData(f, owner);
      AttachRef(f, owner, FirstFree(f, 0), i, k, j, l);
      AttachRef(f, owner, FirstFree(f, 0), i, k, i, k);
    }
  }

  /** The slots file block bn needs: its own, and the indirect pointer beyond the direct ones. */
  predicate Needs(bn: nat, l: nat) {
    l == SlotOf(bn) || (bn >= NDIRECT && l == INDIRECT)
  }

  lemma BmapRef(f: Fs, owner: map<nat, Slot>, i: nat, bn: nat, j: nat, l: nat)
    requires Owned(f, owner) && i < f.sb.ninodes && j < f.sb.ninodes && l < SLOTS && Bmap(f, i, bn).Some?
    ensures var g := Bmap(f, i, bn).value;
            && (!(j == i && Needs(bn, l)) ==> Ref(g, j, l) == Ref(f, j, l))
            && (j == i && Needs(bn, l) ==> Ref(g, j, l) != 0)
  {
    hide Ref, Used, Fill, Owned;
    OwnedShape(f, owner);
    if bn < NDIRECT {
      FillRef(f, owner, i, bn, j, l);
    } else {
      FillRef(f, owner, i, INDIRECT, j, l);
      FillRef(f, owner, i, INDIRECT, i, INDIRECT);
      var o1 := FillExtends(f, owner, i, INDIRECT);
      var g := Fill(f, i, INDIRECT).value;
      PointerRef(g, i);
      FillRef(g, o1, i, bn + 1, j, l);
    }
  }

  /** A block that is mapped already costs nothing. */
  lemma BmapMapped(f: Fs, i: nat, bn: nat)
    requires Shape(f) && i < f.sb.ninodes && bn < MAXFILE
    requires forall l :: 0 <= l < SLOTS && Needs(bn, l) ==> Ref(f, i, l) != 0 && Ref(f, i, l) < f.sb.size
    ensures Bmap(f, i, bn) == Some(f)
  {
    assert Needs(bn, SlotOf(bn));
    if bn >= NDIRECT {
      assert Needs(bn, INDIRECT);
    }
  }

  /** Slot l is needed by one of the n bytes at off. */
  ghost predicate Touched(off: nat, n: nat, l: nat) {
    n > 0 && exists bn :: off / BSIZE <= bn && bn * BSIZE < off + n && Needs(bn, l)
  }

  lemma WriteChunkRef(f: Fs, owner: map<nat, Slot>, i: nat, off: nat, src: seq<Byte>, j: nat, l: nat)
    requires Owned(f, owner) && i < f.sb.ninodes && j < f.sb.ninodes && l < SLOTS && WriteChunk(f, i, off, src).Some?
    ensures var g := WriteChunk(f, i, off, src).value;
            && (!(j == i && Needs(off / BSIZE, l)) ==> Ref(g, j, l) == Ref(f, j, l))
            && (j == i && Needs(off / BSIZE, l) ==> Ref(g, j, l) != 0)
  {
    hide Ref, Bmap, Patch, Owned;
    OwnedShape(f, owner);
    BmapRef(f, owner, i, off / BSIZE, j, l);
    var o1 := BmapExtends(f, owner, i, off / BSIZE);
    var h := Bmap(f, i, off / BSIZE).value;
    var r := Ref(h, i, SlotOf(off / BSIZE));
    PatchRef(h, o1, i, off / BSIZE, r, off % BSIZE, src[..Chunk(off, |src|)], j, l);
  }

  lemma TouchedSplit(off: nat, n: nat, l: nat)
    requires n > 0
    ensures var m := Chunk(off, n);
            Touched(off, n, l) <==> Needs(off / BSIZE, l) || Touched(off + m, n - m, l)
  {
    var m := Chunk(off, n);
    BlockStep(off, n);
    if Needs(off / BSIZE, l) {
      assert off / BSIZE * BSIZE < off + n;
    }
    if Touched(off, n, l) && !Needs(off / BSIZE, l) {
      var bn :| off / BSIZE <= bn && bn * BSIZE < off + n && Needs(bn, l);
      assert bn > off / BSIZE;
    }
    if Touched(off + m, n - m, l) {
      var bn :| (off + m) / BSIZE <= bn && bn * BSIZE < off + m + (n - m) && Needs(bn, l);
      assert off / BSIZE <= bn;
    }
  }

  /** A chunk ends the write or at the end of its block. */
  lemma BlockStep(off: nat, n: nat)
    requires n > 0
    ensures off / BSIZE * BSIZE <= off
    ensures var m := Chunk(off, n); (m < n ==> off + m == (off / BSIZE + 1) * BSIZE && (off + m) / BSIZE == off / BSIZE + 1)
    ensures var m := Chunk(off, n); m == n ==> off + n <= (off / BSIZE + 1) * BSIZE
    ensures off / BSIZE <= (off + Chunk(off, n)) / BSIZE
  {
  }

  /** writei gives blocks to exactly the slots its bytes need. */
  lemma {:induction false} WriteAllRef(f: Fs, owner: map<nat, Slot>, i: nat, off: nat, src: seq<Byte>, j: nat, l: nat)
    requires Owned(f, owner) && i < f.sb.ninodes && j < f.sb.ninodes && l < SLOTS && WriteAll(f, i, off, src).Some?
    ensures var g := WriteAll(f, i, off, src).value;
            && (!(j == i && Touched(off, |src|, l)) ==> Ref(g, j, l) == Ref(f, j, l))
            && (j == i && Touched(off, |src|, l) ==> Ref(g, j, l) != 0)
    decreases |src|
  {
    hide Ref, Owned, WriteChunk, Needs, Touched, Chunk;
    OwnedShape(f, owner);
    if src == [] {
      TouchedNone(off, l);
    } else {
      var m := Chunk(off, |src|);
      WriteChunkRef(f, owner, i, off, src, j, l);
      var o1 := WriteChunkSplices(f, owner, i, off, src);
      var h := WriteChunk(f, i, off, src).value;
      WriteAllRef(h, o1, i, off + m, src[m..], j, l);
      TouchedSplit(off, |src|, l);
    }
  }

  lemma TouchedNone(off: nat, l: nat)
    ensures !Touched(off, 0, l)
  {
  }

  // ----- The mapped prefix -----

  /** Block bn is one of the ceil(size / BSIZE) blocks of the file. */
  predicate InFile(size: nat, bn: nat) {
    bn * BSIZE < size
  }

  /** Slot l is needed by a file of this size. */
  ghost predicate NeededBy(size: nat, l: nat) {
    exists bn :: 0 <= bn && InFile(size, bn) && Needs(bn, l)
  }

  /** The file has blocks for its size and no others. */
  ghost predicate Mapped(f: Fs, i: nat)
    requires Shape(f) && i < f.sb.ninodes
  {
    forall l :: 0 <= l < SLOTS ==> (Ref(f, i, l) != 0 <==> NeededBy(f.tab[i].size, l))
  }

  lemma NeededGrows(size: nat, off: nat, n: nat, l: nat)
    requires off <= size
    ensures NeededBy(if off + n > size then off + n else size, l) <==> NeededBy(size, l) || Touched(off, n, l)
  {
    var size' := if off + n > size then off + n else size;
    if NeededBy(size', l) && !NeededBy(size, l) {
      var bn :| 0 <= bn && InFile(size', bn) && Needs(bn, l);
      assert bn * BSIZE >= size;
      BeforeBlock(off, bn);
    }
    if NeededBy(size, l) {
      var bn :| 0 <= bn && InFile(size, bn) && Needs(bn, l);
      assert InFile(size', bn);
    }
    if Touched(off, n, l) {
      var bn :| off / BSIZE <= bn && bn * BSIZE < off + n && Needs(bn, l);
      assert InFile(size', bn);
    }
  }

  lemma BeforeBlock(off: nat, bn: nat)
    requires bn * BSIZE >= off
    ensures off / BSIZE <= bn
  {
  }

  /** A write inside the file needs only slots the file has. */
  lemma TouchedInside(size: nat, off: nat, n: nat, l: nat)
    requires off + n <= size
    ensures Touched(off, n, l) ==> NeededBy(size, l)
  {
    NeededGrows(size, off, n, l);
  }

  /** Files that are mapped exactly up to their size stay so under every writei. */
  lemma WriteiMapped(f: Fs, owner: map<nat, Slot>, i: nat, off: Word, src: seq<Byte>, j: nat)
    requires Owned(f, owner) && SizesOk(f) && i < f.sb.ninodes && j < f.sb.ninodes && Mapped(f, j)
    requires Writei(f, i, off, src).Some?
    ensures Mapped(Writei(f, i, off, src).value.0, j)
  {
    hide Ref, Owned, WriteAll, Iupdate, NeededBy, Touched;
    OwnedShape(f, owner);
    var h := Writei(f, i, off, src).value.0;
    if Writei(f, i, off, src).value.1 >= 0 {
      var o1 := WriteAllSplices(f, owner, i, off, src);
      var g := WriteAll(f, i, off, src).value;
      if |src| > 0 && off + |src| > g.tab[i].size {
        ResizeSame(g, o1, i, off + |src|);
        IupdateOwned(Resize(g, i, off + |src|), o1, i);
      }
      forall l | 0 <= l < SLOTS ensures Ref(h, j, l) != 0 <==> NeededBy(h.tab[j].size, l) {
        WriteAllRef(f, owner, i, off, src, j, l);
        NeededGrows(f.tab[i].size, off, |src|, l);
      }
    }
  }

  /** Every pointer the n bytes at off need has its block. */
  ghost predicate There(f: Fs, i: nat, off: nat, n: nat)
    requires Shape(f) && i < f.sb.ninodes
  {
    forall l :: 0 <= l < SLOTS && Touched(off, n, l) ==> Ref(f, i, l) != 0
  }

  lemma MappedThere(f: Fs, i: nat, off: nat, n: nat)
    requires Shape(f) && i < f.sb.ninodes && Mapped(f, i) && off + n <= f.tab[i].size
    ensures There(f, i, off, n) && PointersThere(f, i, off, n)
  {
    hide NeededBy, Touched;
    forall l | 0 <= l < SLOTS && Touched(off, n, l) ensures Ref(f, i, l) != 0 {
      TouchedInside(f.tab[i].size, off, n, l);
    }
  }

  lemma ThereBmap(f: Fs, owner: map<nat, Slot>, i: nat, off: nat, n: nat)
    requires Owned(f, owner) && i < f.sb.ninodes && There(f, i, off, n) && n > 0 && off + n <= MAXFILE * BSIZE
    ensures Bmap(f, i, off / BSIZE) == Some(f)
    ensures There(f, i, off + Chunk(off, n), n - Chunk(off, n))
  {
    hide Ref, Touched, Chunk;
    var bn := off / BSIZE;
    forall l | 0 <= l < SLOTS && Needs(bn, l) ensures Ref(f, i, l) != 0 && Ref(f, i, l) < f.sb.size {
      TouchedSplit(off, n, l);
      assert OwnedBlock(f, owner[Ref(f, i, l)], Ref(f, i, l));
    }
    BmapMapped(f, i, bn);
    forall l | 0 <= l < SLOTS && Touched(off + Chunk(off, n), n - Chunk(off, n), l) ensures Ref(f, i, l) != 0 {
      TouchedSplit(off, n, l);
    }
  }

  // ----- The inode on disk -----

  predicate Synced(f: Fs, i: nat)
    requires Shape(f) && i < f.sb.ninodes
  {
    Dinode(f, i) == f.tab[i]
  }

  lemma SameDinode(f: Fs, g: Fs, j: nat)
    requires Shape(f) && Shape(g) && g.sb == f.sb && j < f.sb.ninodes
    requires forall s :: f.sb.IBlock(0) <= s < f.sb.BBlock(0) ==> g.blk[s] == f.blk[s]
    ensures Dinode(g, j) == Dinode(f, j)
  {
    InodeInside(f.sb, j);
  }

  function ZeroInode(): Inode {
    Inode(0, 0, 0, [0, 0, 0, 0, 0, 0, 0, 0, 0, 0, 0, 0, 0])
  }

  /** readsb: the words of block 1. The kernel has no use for nblocks. */
  function Readsb(b: Block): Super {
    Super(GetWord(b, 0), GetWord(b, 2), GetWord(b, 3))
  }

  /** Where initlog puts the log of this file system. */
  function LogOf(sb: Super): Recovery.Geometry {
    Recovery.Geometry(sb.LogStart(), sb.nlog)
  }

  /** The file system a kernel finds on these blocks, with every inode as it is on disk. */
  function Mount(sb: Super, blk: seq<Block>): (f: Fs)
    requires |blk| == sb.size <= 0x1_0000_0000 && sb.DataStart() <= sb.size
    ensures Shape(f) && f.sb == sb && f.blk == blk && f.logged == {}
  {
    var bare := Fs(sb, blk, seq(sb.ninodes, _ => ZeroInode()), {});
    bare.(tab := seq(sb.ninodes, i requires 0 <= i < sb.ninodes => Dinode(bare, i)))
  }

  /** Every pointer in the inode itself that the n bytes at off need has its block. */
  ghost predicate PointersThere(f: Fs, i: nat, off: nat, n: nat)
    requires Shape(f) && i < f.sb.ninodes
  {
    forall l :: 0 <= l <= INDIRECT && Touched(off, n, l) ==> Ref(f, i, l) != 0
  }

  lemma WriteAllAddrs(f: Fs, owner: map<nat, Slot>, i: nat, off: nat, src: seq<Byte>)
    requires Owned(f, owner) && i < f.sb.ninodes && WriteAll(f, i, off, src).Some?
    ensures WriteAll(f, i, off, src).value.tab[i] == f.tab[i] <==> PointersThere(f, i, off, |src|)
  {
    hide Owned, WriteAll, Touched, Spliced;
    OwnedShape(f, owner);
    var o1 := WriteAllSplices(f, owner, i, off, src);
    var g := WriteAll(f, i, off, src).value;
    forall l | 0 <= l <= INDIRECT
      ensures Ref(g, i, l) == Ref(f, i, l) <==> (Touched(off, |src|, l) ==> Ref(f, i, l) != 0)
    {
      WriteAllRef(f, owner, i, off, src, i, l);
      if Ref(f, i, l) != 0 {
        ExtendsRef(f, owner, g, o1, i, i, l);
      }
    }
    SameAddrs(f, g, i);
  }

  lemma SameAddrs(f: Fs, g: Fs, i: nat)
    requires Shape(f) && Shape(g) && g.sb == f.sb && i < f.sb.ninodes && g.tab[i] == f.tab[i].(addrs := g.tab[i].addrs)
    ensures g.tab[i] == f.tab[i] <==> forall l :: 0 <= l <= INDIRECT ==> Ref(g, i, l) == Ref(f, i, l)
  {
    if forall l :: 0 <= l <= INDIRECT ==> Ref(g, i, l) == Ref(f, i, l) {
      forall l | 0 <= l <= INDIRECT ensures g.tab[i].addrs[l] == f.tab[i].addrs[l] {
        assert Ref(g, i, l) == Ref(f, i, l);
      }
      assert g.tab[i].addrs == f.tab[i].addrs;
    }
  }

  /** A writei that makes the file longer reaches iupdate, one inside the file does not:
      when it returns, the inode on disk is the one in memory exactly if the file grew or
      every pointer in the inode that the bytes need was there. */
  lemma WriteiSynced(f: Fs, owner: map<nat, Slot>, i: nat, off: Word, src: seq<Byte>, j: nat)
    requires Owned(f, owner) && i < f.sb.ninodes && j < f.sb.ninodes && Synced(f, j)
    requires Writei(f, i, off, src).Some?
    ensures var (g, r) := Writei(f, i, off, src).value;
            Synced(g, j) <==> (j == i && r >= 0 && off + |src| <= f.tab[i].size ==> PointersThere(f, i, off, |src|))
  {
    hide Ref, Owned, WriteAll, Iupdate, Dinode, Touched;
    OwnedShape(f, owner);
    if Writei(f, i, off, src).value.1 >= 0 {
      var o1 := WriteAllSplices(f, owner, i, off, src);
      var g := WriteAll(f, i, off, src).value;
      SameDinode(f, g, j);
      WriteAllAddrs(f, owner, i, off, src);
      if |src| > 0 && off + |src| > g.tab[i].size {
        var h := Resize(g, i, off + |src|);
        SameDinode(g, h, j);
        IupdateSync(h, i, j);
      } else if |src| == 0 {
        forall l | 0 <= l <= INDIRECT ensures !Touched(off, 0, l) {
          TouchedNone(off, l);
        }
      }
    }
  }

  // ----- readi -----

  /** readi's loop, and the file system after the bmap calls it makes. */
  function ReadAll(f: Fs, i: nat, off: nat, n: nat): (r: Option<(Fs, seq<Byte>)>)
    requires Shape(f) && i < f.sb.ninodes
    ensures r.Some? ==> Shape(r.value.0) && r.value.0.sb == f.sb
    decreases n
  {
    if n == 0 then Some((f, []))
    else
      var m := Chunk(off, n);
      var g := Bmap(f, i, off / BSIZE);
      if g.None? || Ref(g.value, i, SlotOf(off / BSIZE)) >= f.sb.size then None
      else
        var b := g.value.blk[Ref(g.value, i, SlotOf(off / BSIZE))];
        var rest := ReadAll(g.value, i, off + m, n - m);
        if rest.None? then None else Some((rest.value.0, b[off % BSIZE..off % BSIZE + m] + rest.value.1))
  }

  /** readi: the file system afterwards and the bytes, or no bytes for its return of -1. */
  function Readi(f: Fs, i: nat, off: Word, n: Word): (r: Option<(Fs, Option<seq<Byte>>)>)
    requires Shape(f) && i < f.sb.ninodes
    ensures r.Some? ==> Shape(r.value.0) && r.value.0.sb == f.sb
  {
    if off > f.tab[i].size || off + n >= 0x1_0000_0000 then Some((f, None))
    else
      var n' := if off + n > f.tab[i].size then f.tab[i].size - off else n;
      var g := ReadAll(f, i, off, n');
      if g.None? then None else Some((g.value.0, Some(g.value.1)))
  }

  lemma BmapSame(f: Fs, g: Fs, i: nat)
    requires Shape(f) && Shape(g) && g.sb == f.sb && i < f.sb.ninodes && SamePeeks(f, g)
    requires g.tab[i].size == f.tab[i].size <= MAXFILE * BSIZE
    ensures Bytes(g, i) == Bytes(f, i)
  {
    hide Peek;
  }

  lemma SamePeeksNone(f: Fs)
    requires Shape(f)
    ensures SamePeeks(f, f)
  {
  }

  lemma SamePeeksTrans(f: Fs, h: Fs, g: Fs)
    requires Shape(f) && Shape(h) && Shape(g) && h.sb == f.sb && g.sb == f.sb && SamePeeks(f, h) && SamePeeks(h, g)
    ensures SamePeeks(f, g)
  {
    hide Peek;
  }

  lemma SliceTwice(bs: seq<Byte>, off: nat, m: nat, n: nat)
    requires m <= n && off + n <= |bs|
    ensures bs[off..off + n] == bs[off..off + m] + bs[off + m..off + m + (n - m)]
  {
  }

  /** readi's loop returns the bytes, zeros where there was no block; it leaves the bytes
      of all files and the ownership alone. */
  lemma {:induction false} ReadAllBytes(f: Fs, owner: map<nat, Slot>, i: nat, off: nat, n: nat) returns (owner': map<nat, Slot>)
    requires Owned(f, owner) && i < f.sb.ninodes && off + n <= f.tab[i].size <= MAXFILE * BSIZE
    ensures ReadAll(f, i, off, n).Some? ==>
              var (g, bs) := ReadAll(f, i, off, n).value;
              Extends(f, owner, g, owner', i) && SamePeeks(f, g) && bs == Bytes(f, i)[off..off + n]
    decreases n
  {
    hide Ref, Owned, Bmap, Bytes, Chunk, Peek, SlotsOwned, OwnersHold, BitmapExact, SamePeeks, SlotOf;
    OwnedShape(f, owner);
    owner' := owner;
    SamePeeksNone(f);
    if n == 0 {
      assert Bytes(f, i)[off..off] == [];
    } else if ReadAll(f, i, off, n).Some? {
      var m := Chunk(off, n);
      var o1 := BmapExtends(f, owner, i, off / BSIZE);
      var h := Bmap(f, i, off / BSIZE).value;
      BmapSame(f, h, i);
      owner' := ReadAllBytes(h, o1, i, off + m, n - m);
      var g := ReadAll(f, i, off, n).value.0;
      ExtendsTrans(f, owner, h, o1, g, owner', i);
      SamePeeksTrans(f, h, g);
      ChunkBytes(h, i, off, m);
      SliceTwice(Bytes(f, i), off, m, n);
    }
  }

  lemma {:induction false} ReadAllThere(f: Fs, owner: map<nat, Slot>, i: nat, off: nat, n: nat)
    requires Owned(f, owner) && i < f.sb.ninodes && There(f, i, off, n) && off + n <= MAXFILE * BSIZE
    ensures ReadAll(f, i, off, n).Some? && ReadAll(f, i, off, n).value.0 == f
    decreases n
  {
    hide Bmap, There, Owned, Ref, Chunk;
    OwnedShape(f, owner);
    if n > 0 {
      ThereBmap(f, owner, i, off, n);
      var o1 := BmapExtends(f, owner, i, off / BSIZE);
      HoldsOwned(f, owner, i, off / BSIZE, Ref(f, i, SlotOf(off / BSIZE)));
      ReadAllThere(f, owner, i, off + Chunk(off, n), n - Chunk(off, n));
    }
  }

  /** After readi every pointer the bytes need has its block. */
  lemma {:induction false} ReadAllRef(f: Fs, owner: map<nat, Slot>, i: nat, off: nat, n: nat, l: nat)
    requires Owned(f, owner) && i < f.sb.ninodes && l < SLOTS && off + n <= f.tab[i].size <= MAXFILE * BSIZE
    requires ReadAll(f, i, off, n).Some? && Touched(off, n, l)
    ensures Ref(ReadAll(f, i, off, n).value.0, i, l) != 0
    decreases n
  {
    hide Ref, Owned, Bmap, Needs, Touched, Chunk, Peek;
    OwnedShape(f, owner);
    if n == 0 {
      TouchedNone(off, l);
    } else {
      var m := Chunk(off, n);
      TouchedSplit(off, n, l);
      var o1 := BmapExtends(f, owner, i, off / BSIZE);
      var h := Bmap(f, i, off / BSIZE).value;
      BmapRef(f, owner, i, off / BSIZE, i, l);
      var o2 := ReadAllBytes(h, o1, i, off + m, n - m);
      if Needs(off / BSIZE, l) {
        ExtendsRef(h, o1, ReadAll(f, i, off, n).value.0, o2, i, i, l);
      } else {
        ReadAllRef(h, o1, i, off + m, n - m, l);
      }
    }
  }

  lemma ChunkBytes(f: Fs, i: nat, off: nat, m: nat)
    requires Shape(f) && i < f.sb.ninodes && off + m <= f.tab[i].size <= MAXFILE * BSIZE && off % BSIZE + m <= BSIZE && m > 0
    requires off / BSIZE < MAXFILE && 0 < Ref(f, i, SlotOf(off / BSIZE)) < f.sb.size
    ensures f.blk[Ref(f, i, SlotOf(off / BSIZE))][off % BSIZE..off % BSIZE + m] == Bytes(f, i)[off..off + m]
  {
    hide Ref;
    var b := f.blk[Ref(f, i, SlotOf(off / BSIZE))][off % BSIZE..off % BSIZE + m];
    forall x | 0 <= x < m ensures b[x] == Bytes(f, i)[off + x] {
      SamePlace(off, off + x, m);
    }
  }

  predicate ReadRefused(f: Fs, i: nat, off: Word, n: Word)
    requires Shape(f) && i < f.sb.ninodes
  {
    off > f.tab[i].size || off + n >= 0x1_0000_0000
  }

  /** How many of n bytes at off the file has. */
  function Clipped(f: Fs, i: nat, off: Word, n: Word): nat
    requires Shape(f) && i < f.sb.ninodes && !ReadRefused(f, i, off, n)
  {
    if off + n > f.tab[i].size then f.tab[i].size - off else n
  }

  /** readi returns -1 for an offset past the end or one that wraps, and else the bytes
      asked for, clipped at the end of the file. It is bmap that allocates: readi leaves
      the file system alone exactly when every pointer the bytes need has its block. */
  lemma ReadiCorrect(f: Fs, owner: map<nat, Slot>, i: nat, off: Word, n: Word) returns (owner': map<nat, Slot>)
    requires Owned(f, owner) && SizesOk(f) && i < f.sb.ninodes
    ensures ReadRefused(f, i, off, n) ==> Readi(f, i, off, n) == Some((f, None))
    ensures !ReadRefused(f, i, off, n) && Readi(f, i, off, n).Some? ==>
              var (g, bs) := Readi(f, i, off, n).value;
              Extends(f, owner, g, owner', i) && SamePeeks(f, g) && bs == Some(Bytes(f, i)[off..off + Clipped(f, i, off, n)])
    ensures !ReadRefused(f, i, off, n) ==>
              (There(f, i, off, Clipped(f, i, off, n)) <==> Readi(f, i, off, n).Some? && Readi(f, i, off, n).value.0 == f)
  {
    hide ReadAll, Owned, There, Bytes, Extends, SamePeeks, Ref;
    OwnedShape(f, owner);
    owner' := owner;
    if !ReadRefused(f, i, off, n) {
      var m := Clipped(f, i, off, n);
      owner' := ReadAllBytes(f, owner, i, off, m);
      if There(f, i, off, m) {
        ReadAllThere(f, owner, i, off, m);
      } else if Readi(f, i, off, n).Some? {
        NotThere(f, owner, i, off, m);
      }
    }
  }

  lemma NotThere(f: Fs, owner: map<nat, Slot>, i: nat, off: nat, n: nat)
    requires Owned(f, owner) && i < f.sb.ninodes && off + n <= f.tab[i].size <= MAXFILE * BSIZE
    requires ReadAll(f, i, off, n).Some? && !There(f, i, off, n)
    ensures ReadAll(f, i, off, n).value.0 != f
  {
    hide Ref, Touched, ReadAll;
    var l :| 0 <= l < SLOTS && Touched(off, n, l) && Ref(f, i, l) == 0;
    ReadAllRef(f, owner, i, off, n, l);
  }

  /** readi outside of a transaction: log_write panics as soon as balloc calls it. */
  function ReadiOutside(f: Fs, i: nat, off: Word, n: Word): Option<Option<seq<Byte>>>
    requires Shape(f) && i < f.sb.ninodes
  {
    var r := Readi(f, i, off, n);
    if r.None? || r.value.0 != f then None else Some(r.value.1)
  }

  /** So a lookup or a read panics exactly when it comes to a pointer without a block. */
  lemma ReadiOutsideCorrect(f: Fs, owner: map<nat, Slot>, i: nat, off: Word, n: Word)
    requires Owned(f, owner) && SizesOk(f) && i < f.sb.ninodes
    ensures ReadRefused(f, i, off, n) ==> ReadiOutside(f, i, off, n) == Some(None)
    ensures !ReadRefused(f, i, off, n) ==>
              ReadiOutside(f, i, off, n) ==
                if There(f, i, off, Clipped(f, i, off, n)) then Some(Some(Bytes(f, i)[off..off + Clipped(f, i, off, n)])) else None
  {
    hide Readi, Owned, There, Bytes, Extends, SamePeeks;
    OwnedShape(f, owner);
    var o := ReadiCorrect(f, owner, i, off, n);
  }
}
