/** When writei and readi do not panic: balloc runs out only when no bit of the bitmap is
    clear, and the bytes cost exactly the blocks that are missing. */
module FileRoom {
  import opened Blocks
  import opened Counting
  import opened Options
  import opened FileSystem
  import opened FileBytes
  import opened FileMaps

  /** The free blocks before block n. */
  ghost function FreeBelow(f: Fs, n: nat): set<nat>
    requires Shape(f) && n <= f.sb.size
  {
    set b | 0 <= b < n && !Used(f, b)
  }

  ghost function FreeBlocks(f: Fs): set<nat>
    requires Shape(f)
  {
    FreeBelow(f, f.sb.size)
  }

  /** No file has a block from block n on. */
  ghost predicate RefsBelow(f: Fs, n: nat)
    requires Shape(f)
  {
    forall j, l :: 0 <= j < f.sb.ninodes && 0 <= l < SLOTS ==> Ref(f, j, l) < n
  }

  /** What becomes of f when it takes this many blocks, all of them before block n. */
  ghost predicate Took(f: Fs, g: Fs, n: nat, count: nat)
    requires Shape(f) && Shape(g) && g.sb == f.sb && n <= f.sb.size
  {
    |FreeBelow(f, n)| == |FreeBelow(g, n)| + count && (RefsBelow(f, n) ==> RefsBelow(g, n))
  }

  /** balloc takes the first free block: one before block n if there is one. */
  lemma FirstBelow(f: Fs, n: nat)
    requires Shape(f) && n <= f.sb.size
    ensures FreeBelow(f, n) != {} <==> FirstFree(f, 0) < n
    ensures FirstFree(f, 0) < n ==> FirstFree(f, 0) in FreeBelow(f, n)
  {
    hide Used;
    var b := FirstFree(f, 0);
    if b < n {
      assert !Used(f, b);
      assert b in FreeBelow(f, n);
    }
  }

  /** One pointer of bmap takes a block exactly if it has none; it fails exactly if there
      is none to take. */
  lemma FillRoom(f: Fs, owner: map<nat, Slot>, i: nat, k: nat, n: nat)
    requires Owned(f, owner) && i < f.sb.ninodes && k < SLOTS && (k > INDIRECT ==> f.tab[i].addrs[INDIRECT] != 0) && n <= f.sb.size
    ensures k > INDIRECT ==> f.tab[i].addrs[INDIRECT] < f.sb.size
    ensures Fill(f, i, k).None? <==> Ref(f, i, k) == 0 && FreeBlocks(f) == {}
    ensures Ref(f, i, k) != 0 || FreeBelow(f, n) != {} ==>
              Fill(f, i, k).Some? && Took(f, Fill(f, i, k).value, n, if Ref(f, i, k) == 0 then 1 else 0)
  {
    hide Used, Ref, Owned, Attach, Allocate, RefsBelow, FreeBelow;
    OwnedShape(f, owner);
    if k > INDIRECT {
      IndirectOwned(f, owner, i);
    }
    FirstBelow(f, f.sb.size);
    FirstBelow(f, n);
    if Ref(f, i, k) == 0 && FirstFree(f, 0) < n {
      FillBelow(f, owner, i, k, n);
      FillRefs(f, owner, i, k, n);
    }
  }

  lemma FillBelow(f: Fs, owner: map<nat, Slot>, i: nat, k: nat, n: nat)
    requires Owned(f, owner) && i < f.sb.ninodes && k < SLOTS && (k > INDIRECT ==> 0 < f.tab[i].addrs[INDIRECT] < f.sb.size)
    requires n <= f.sb.size && Ref(f, i, k) == 0 && FirstFree(f, 0) < n
    ensures Fill(f, i, k).Some? && |FreeBelow(f, n)| == |FreeBelow(Fill(f, i, k).value, n)| + 1
  {
    hide Used, Ref, Owned, Attach, Allocate;
    OwnedShape(f, owner);
    var b := FirstFree(f, 0);
    FreeIsData(f, owner);
    var g := Fill(f, i, k).value;
    forall c | 0 <= c < f.sb.size ensures Used(g, c) <==> c == b || Used(f, c) {
      AttachUsed(f, owner, b, i, k, c);
    }
    FirstBelow(f, n);
    assert FreeBelow(g, n) == FreeBelow(f, n) - {b};
  }

  lemma FillRefs(f: Fs, owner: map<nat, Slot>, i: nat, k: nat, n: nat)
    requires Owned(f, owner) && i < f.sb.ninodes && k < SLOTS && (k > INDIRECT ==> 0 < f.tab[i].addrs[INDIRECT] < f.sb.size)
    requires n <= f.sb.size && Ref(f, i, k) == 0 && FirstFree(f, 0) < n
    ensures Fill(f, i, k).Some? && (RefsBelow(f, n) ==> RefsBelow(Fill(f, i, k).value, n))
  {
    hide Used, Ref, Owned, Attach, Allocate, FirstFree;
    OwnedShape(f, owner);
    FreeIsData(f, owner);
    if RefsBelow(f, n) {
      forall j, l | 0 <= j < f.sb.ninodes && 0 <= l < SLOTS ensures Ref(Fill(f, i, k).value, j, l) < n {
        AttachRef(f, owner, FirstFree(f, 0), i, k, j, l);
      }
    }
  }

  /** The slots file block bn needs that have no block. */
  ghost function MissingAt(f: Fs, i: nat, bn: nat): set<nat>
    requires Shape(f) && i < f.sb.ninodes
  {
    set l | 0 <= l < SLOTS && Needs(bn, l) && Ref(f, i, l) == 0
  }

  /** The slots the n bytes at off need that have no block. */
  ghost function Missing(f: Fs, i: nat, off: nat, n: nat): set<nat>
    requires Shape(f) && i < f.sb.ninodes
  {
    set l | 0 <= l < SLOTS && Touched(off, n, l) && Ref(f, i, l) == 0
  }

  /** One slot at most, or two with the indirect block's. */
  lemma MissingOne(f: Fs, i: nat, bn: nat)
    requires Shape(f) && i < f.sb.ninodes && bn < MAXFILE
    ensures |MissingAt(f, i, bn)| ==
            (if Ref(f, i, SlotOf(bn)) == 0 then 1 else 0) + if bn >= NDIRECT && Ref(f, i, INDIRECT) == 0 then 1 else 0
  {
    hide Ref;
    var l, own, ind := SlotOf(bn), Ref(f, i, SlotOf(bn)) == 0, bn >= NDIRECT && Ref(f, i, INDIRECT) == 0;
    if own && ind {
      assert MissingAt(f, i, bn) == {l} + {INDIRECT};
    } else if own {
      assert MissingAt(f, i, bn) == {l};
    } else if ind {
      assert MissingAt(f, i, bn) == {INDIRECT};
    } else {
      assert MissingAt(f, i, bn) == {};
    }
  }

  lemma TookThen(f: Fs, h: Fs, g: Fs, n: nat, a: nat, b: nat)
    requires Shape(f) && Shape(h) && Shape(g) && h.sb == f.sb && g.sb == f.sb && n <= f.sb.size && Took(f, h, n, a) && Took(h, g, n, b)
    ensures Took(f, g, n, a + b)
  {
    hide FreeBelow, RefsBelow;
  }

  /** bmap succeeds exactly if there are blocks for what is missing, and takes those. */
  lemma BmapRoom(f: Fs, owner: map<nat, Slot>, i: nat, bn: nat, n: nat)
    requires Owned(f, owner) && i < f.sb.ninodes && bn < MAXFILE && n <= f.sb.size
    ensures Bmap(f, i, bn).Some? <==> |MissingAt(f, i, bn)| <= |FreeBlocks(f)|
    ensures |MissingAt(f, i, bn)| <= |FreeBelow(f, n)| ==>
              Bmap(f, i, bn).Some? && Took(f, Bmap(f, i, bn).value, n, |MissingAt(f, i, bn)|)
  {
    hide Fill, Ref, FreeBelow, RefsBelow, MissingAt, Owned, Extends, SamePeeks;
    OwnedShape(f, owner);
    MissingOne(f, i, bn);
    if bn < NDIRECT {
      FillRoom(f, owner, i, bn, n);
    } else {
      FillRoom(f, owner, i, INDIRECT, n);
      FillRoom(f, owner, i, INDIRECT, f.sb.size);
      var o1 := FillExtends(f, owner, i, INDIRECT);
      if Fill(f, i, INDIRECT).Some? {
        var g := Fill(f, i, INDIRECT).value;
        NowOwned(f, owner, g, o1, i);
        PointerRef(g, i);
        IndirectOwned(g, o1, i);
        FillRoom(g, o1, i, bn + 1, n);
        FillRef(f, owner, i, INDIRECT, i, bn + 1);
        if |MissingAt(f, i, bn)| <= |FreeBelow(f, n)| {
          TookThen(f, g, Fill(g, i, bn + 1).value, n, if Ref(f, i, INDIRECT) == 0 then 1 else 0,
                   if Ref(f, i, bn + 1) == 0 then 1 else 0);
        }
      }
    }
  }

  lemma NowOwned(f: Fs, owner: map<nat, Slot>, g: Fs, owner': map<nat, Slot>, i: nat)
    requires Extends(f, owner, g, owner', i)
    ensures Owned(g, owner') && g.sb == f.sb
  {
  }

  /** The bytes of a block are not the bitmap, nor a list of blocks. */
  lemma PatchRoom(f: Fs, owner: map<nat, Slot>, i: nat, bn: nat, r: nat, p: nat, bytes: seq<Byte>, n: nat)
    requires Owned(f, owner) && Holds(f, i, bn, r) && r < f.sb.size && p + |bytes| <= BSIZE && n <= f.sb.size
    ensures Took(f, Patch(f, r, p, bytes), n, 0)
  {
    PatchOwned(f, owner, i, bn, r, p, bytes);
    hide Used, Ref, Patch;
    var g := Patch(f, r, p, bytes);
    forall b | 0 <= b < f.sb.size ensures Used(g, b) == Used(f, b) {
    }
    assert FreeBelow(g, n) == FreeBelow(f, n);
    forall j, l | 0 <= j < f.sb.ninodes && 0 <= l < SLOTS ensures Ref(g, j, l) == Ref(f, j, l) {
      PatchRef(f, owner, i, bn, r, p, bytes, j, l);
    }
  }

  lemma ChunkRoom(f: Fs, owner: map<nat, Slot>, i: nat, off: nat, src: seq<Byte>, n: nat)
    requires Owned(f, owner) && i < f.sb.ninodes && off / BSIZE < MAXFILE && n <= f.sb.size
    ensures WriteChunk(f, i, off, src).Some? <==> |MissingAt(f, i, off / BSIZE)| <= |FreeBlocks(f)|
    ensures |MissingAt(f, i, off / BSIZE)| <= |FreeBelow(f, n)| ==>
              && WriteChunk(f, i, off, src).Some?
              && Took(f, WriteChunk(f, i, off, src).value, n, |MissingAt(f, i, off / BSIZE)|)
  {
    hide Bmap, Ref, Patch, FreeBelow, RefsBelow, MissingAt, Owned, Extends, SamePeeks;
    OwnedShape(f, owner);
    BmapRoom(f, owner, i, off / BSIZE, n);
    var o1 := BmapExtends(f, owner, i, off / BSIZE);
    if Bmap(f, i, off / BSIZE).Some? {
      var g := Bmap(f, i, off / BSIZE).value;
      NowOwned(f, owner, g, o1, i);
      var r := Ref(g, i, SlotOf(off / BSIZE));
      HoldsOwned(g, o1, i, off / BSIZE, r);
      PatchRoom(g, o1, i, off / BSIZE, r, off % BSIZE, src[..Chunk(off, |src|)], n);
    }
  }

  /** What is missing divides into what the first block is missing and the rest. */
  lemma MissingSplit(f: Fs, g: Fs, i: nat, off: nat, n: nat)
    requires Shape(f) && Shape(g) && g.sb == f.sb && i < f.sb.ninodes && n > 0
    requires forall l :: 0 <= l < SLOTS ==> if Needs(off / BSIZE, l) then Ref(g, i, l) != 0 else Ref(g, i, l) == Ref(f, i, l)
    ensures |Missing(f, i, off, n)| == |MissingAt(f, i, off / BSIZE)| + |Missing(g, i, off + Chunk(off, n), n - Chunk(off, n))|
  {
    hide Ref, Needs, Touched, Chunk;
    var m := Chunk(off, n);
    forall l | 0 <= l < SLOTS
      ensures Touched(off, n, l) <==> Needs(off / BSIZE, l) || Touched(off + m, n - m, l)
    {
      TouchedSplit(off, n, l);
    }
    var here, rest := MissingAt(f, i, off / BSIZE), Missing(g, i, off + m, n - m);
    assert Missing(f, i, off, n) == here + rest;
    assert here !! rest;
  }

  lemma TouchedPlus(off: nat, a: nat, b: nat, l: nat)
    ensures Touched(off, a + b, l) <==> Touched(off, a, l) || Touched(off + a, b, l)
  {
    hide Needs;
    if Touched(off, a + b, l) {
      var bn :| off / BSIZE <= bn && bn * BSIZE < off + (a + b) && Needs(bn, l);
      if bn * BSIZE >= off + a {
        BeforeBlock(off + a, bn);
      } else if a == 0 {
        assert bn * BSIZE < off;
        BlockStep(off, 1);
      }
    }
    if Touched(off + a, b, l) {
      var bn :| (off + a) / BSIZE <= bn && bn * BSIZE < off + a + b && Needs(bn, l);
      assert off / BSIZE <= (off + a) / BSIZE;
    }
  }

  /** What a + b bytes are missing is what the first a are, and then the other b. */
  lemma MissingRest(f: Fs, g: Fs, i: nat, off: nat, a: nat, b: nat)
    requires Shape(f) && Shape(g) && g.sb == f.sb && i < f.sb.ninodes
    requires forall l :: 0 <= l < SLOTS ==> if Touched(off, a, l) then Ref(g, i, l) != 0 else Ref(g, i, l) == Ref(f, i, l)
    ensures |Missing(f, i, off, a + b)| == |Missing(f, i, off, a)| + |Missing(g, i, off + a, b)|
  {
    hide Ref, Touched;
    forall l | 0 <= l < SLOTS ensures Touched(off, a + b, l) <==> Touched(off, a, l) || Touched(off + a, b, l) {
      TouchedPlus(off, a, b, l);
    }
    var here, rest := Missing(f, i, off, a), Missing(g, i, off + a, b);
    assert Missing(f, i, off, a + b) == here + rest;
    assert here !! rest;
  }

  lemma MissingNone(f: Fs, i: nat, off: nat)
    requires Shape(f) && i < f.sb.ninodes
    ensures Missing(f, i, off, 0) == {}
  {
  }

  /** writei's loop succeeds exactly if there are blocks for what is missing; it takes
      blocks before block n as long as there are enough of them. */
  lemma {:induction false} WriteAllRoom(f: Fs, owner: map<nat, Slot>, i: nat, off: nat, src: seq<Byte>, n: nat)
    requires Owned(f, owner) && i < f.sb.ninodes && off + |src| <= MAXFILE * BSIZE && n <= f.sb.size
    ensures WriteAll(f, i, off, src).Some? <==> |Missing(f, i, off, |src|)| <= |FreeBlocks(f)|
    ensures |Missing(f, i, off, |src|)| <= |FreeBelow(f, n)| ==>
              WriteAll(f, i, off, src).Some? && Took(f, WriteAll(f, i, off, src).value, n, |Missing(f, i, off, |src|)|)
    decreases |src|
  {
    hide WriteChunk, FreeBelow, RefsBelow, Missing, MissingAt, Owned, Extends, Spliced, Ref, Chunk, Needs;
    OwnedShape(f, owner);
    if src == [] {
      MissingNone(f, i, off);
    } else {
      var m := Chunk(off, |src|);
      ChunkRoom(f, owner, i, off, src, n);
      ChunkRoom(f, owner, i, off, src, f.sb.size);
      MissingFirst(f, i, off, |src|);
      if WriteChunk(f, i, off, src).Some? {
        var o1 := WriteChunkSplices(f, owner, i, off, src);
        var g := WriteChunk(f, i, off, src).value;
        NowOwned(f, owner, g, o1, i);
        WriteAllRoom(g, o1, i, off + m, src[m..], n);
        ChunkMissing(f, owner, i, off, src);
      }
    }
  }

  lemma ChunkMissing(f: Fs, owner: map<nat, Slot>, i: nat, off: nat, src: seq<Byte>)
    requires Owned(f, owner) && i < f.sb.ninodes && WriteChunk(f, i, off, src).Some? && src != []
    ensures var g, m := WriteChunk(f, i, off, src).value, Chunk(off, |src|);
            |Missing(f, i, off, |src|)| == |MissingAt(f, i, off / BSIZE)| + |Missing(g, i, off + m, |src| - m)|
  {
    hide WriteChunk, Missing, MissingAt, Owned, Ref, Chunk, Needs;
    OwnedShape(f, owner);
    var g := WriteChunk(f, i, off, src).value;
    forall l | 0 <= l < SLOTS
      ensures if Needs(off / BSIZE, l) then Ref(g, i, l) != 0 else Ref(g, i, l) == Ref(f, i, l)
    {
      WriteChunkRef(f, owner, i, off, src, i, l);
    }
    MissingSplit(f, g, i, off, |src|);
  }

  lemma MissingFirst(f: Fs, i: nat, off: nat, n: nat)
    requires Shape(f) && i < f.sb.ninodes && n > 0
    ensures |MissingAt(f, i, off / BSIZE)| <= |Missing(f, i, off, n)|
  {
    hide Ref, Needs, Touched;
    forall l | l in MissingAt(f, i, off / BSIZE) ensures l in Missing(f, i, off, n) {
      TouchedSplit(off, n, l);
    }
    SubsetSize(MissingAt(f, i, off / BSIZE), Missing(f, i, off, n));
  }

  /** writei does not panic exactly if it refuses the write, or there is a free block for
      each pointer it needs that has none; its result is decided by offset and length. */
  lemma WriteiSucceeds(f: Fs, owner: map<nat, Slot>, i: nat, off: Word, src: seq<Byte>)
    requires Owned(f, owner) && i < f.sb.ninodes
    ensures var refused := off > f.tab[i].size || off + |src| > MAXFILE * BSIZE;
            && (Writei(f, i, off, src).Some? <==> refused || |Missing(f, i, off, |src|)| <= |FreeBlocks(f)|)
            && (Writei(f, i, off, src).Some? ==> Writei(f, i, off, src).value.1 == if refused then -1 else |src|)
  {
    hide WriteAll, FreeBlocks, Missing, Owned;
    OwnedShape(f, owner);
    if off <= f.tab[i].size && off + |src| <= MAXFILE * BSIZE {
      WriteAllRoom(f, owner, i, off, src, 0);
    }
  }

  lemma {:induction false} ReadAllRoom(f: Fs, owner: map<nat, Slot>, i: nat, off: nat, n: nat)
    requires Owned(f, owner) && i < f.sb.ninodes && off + n <= MAXFILE * BSIZE
    ensures ReadAll(f, i, off, n).Some? <==> |Missing(f, i, off, n)| <= |FreeBlocks(f)|
    decreases n
  {
    hide Bmap, FreeBelow, RefsBelow, Missing, MissingAt, Owned, Extends, SamePeeks, Ref, Chunk, Needs;
    OwnedShape(f, owner);
    if n == 0 {
      MissingNone(f, i, off);
    } else {
      var m := Chunk(off, n);
      BmapRoom(f, owner, i, off / BSIZE, f.sb.size);
      if Bmap(f, i, off / BSIZE).Some? {
        var o1 := BmapExtends(f, owner, i, off / BSIZE);
        var g := Bmap(f, i, off / BSIZE).value;
        NowOwned(f, owner, g, o1, i);
        HoldsOwned(g, o1, i, off / BSIZE, Ref(g, i, SlotOf(off / BSIZE)));
        ReadAllRoom(g, o1, i, off + m, n - m);
        forall l | 0 <= l < SLOTS
          ensures if Needs(off / BSIZE, l) then Ref(g, i, l) != 0 else Ref(g, i, l) == Ref(f, i, l)
        {
          BmapRef(f, owner, i, off / BSIZE, i, l);
        }
        MissingSplit(f, g, i, off, n);
      } else {
        MissingFirst(f, i, off, n);
      }
    }
  }

  /** So it is with readi, which allocates what it finds missing. */
  lemma ReadiSucceeds(f: Fs, owner: map<nat, Slot>, i: nat, off: Word, n: Word)
    requires Owned(f, owner) && SizesOk(f) && i < f.sb.ninodes
    ensures Readi(f, i, off, n).Some? <==>
            ReadRefused(f, i, off, n) || |Missing(f, i, off, Clipped(f, i, off, n))| <= |FreeBlocks(f)|
  {
    hide ReadAll, FreeBlocks, Missing, Owned;
    OwnedShape(f, owner);
    if !ReadRefused(f, i, off, n) {
      ReadAllRoom(f, owner, i, off, Clipped(f, i, off, n));
    }
  }

  // ----- What a file costs -----

  lemma NeedsSelf(bn: nat)
    ensures Needs(bn, SlotOf(bn))
  {
  }

  lemma NeedsData(b: nat, bn: nat)
    requires Needs(b, SlotOf(bn))
    ensures b == bn
  {
  }

  lemma NeededData(size: nat, bn: nat)
    ensures NeededBy(size, SlotOf(bn)) <==> bn * BSIZE < size
  {
    if NeededBy(size, SlotOf(bn)) {
      var b :| 0 <= b && InFile(size, b) && Needs(b, SlotOf(bn));
      NeedsData(b, bn);
    }
    if bn * BSIZE < size {
      assert InFile(size, bn) && Needs(bn, SlotOf(bn));
    }
  }

  lemma NeededIndirect(size: nat)
    ensures NeededBy(size, INDIRECT) <==> size > NDIRECT * BSIZE
  {
    if NeededBy(size, INDIRECT) {
      var b :| 0 <= b && InFile(size, b) && Needs(b, INDIRECT);
      assert b >= NDIRECT;
    }
    if size > NDIRECT * BSIZE {
      assert InFile(size, NDIRECT) && Needs(NDIRECT, INDIRECT);
    }
  }

  /** The blocks of a file of this size, the indirect block among them. */
  function NBlocks(size: nat): nat {
    (size + BSIZE - 1) / BSIZE + if size > NDIRECT * BSIZE then 1 else 0
  }

  lemma NBlocksGrows(a: nat, b: nat)
    requires a <= b
    ensures NBlocks(a) <= NBlocks(b)
  {
  }

  /** The slots a file needs are the first of its inode. */
  lemma NeededRange(size: nat, l: nat)
    requires size <= MAXFILE * BSIZE && l < SLOTS
    ensures NeededBy(size, l) <==> l < NBlocks(size)
  {
    hide NeededBy;
    if l == INDIRECT {
      NeededIndirect(size);
    } else {
      var bn := if l < NDIRECT then l else l - 1;
      NeededData(size, bn);
    }
  }

  /** The blocks of all files together. */
  function Total(c: seq<seq<Byte>>): nat {
    if c == [] then 0 else Total(c[..|c| - 1]) + NBlocks(|c[|c| - 1]|)
  }

  lemma {:induction false} TotalSet(c: seq<seq<Byte>>, i: nat, bs: seq<Byte>)
    requires i < |c|
    ensures Total(c[i := bs]) == Total(c) - NBlocks(|c[i]|) + NBlocks(|bs|)
  {
    var d, m := c[i := bs], |c| - 1;
    if i == m {
      assert d[..m] == c[..m];
    } else {
      TotalSet(c[..m], i, bs);
      assert d[..m] == c[..m][i := bs];
    }
  }

  /** The blocks files can have. */
  function Capacity(sb: Super): int {
    sb.size - sb.DataStart()
  }

  /** What a write to a file with just the blocks of its size is missing. */
  lemma MissingMapped(f: Fs, i: nat, off: nat, n: nat)
    requires Shape(f) && i < f.sb.ninodes && Mapped(f, i) && off <= f.tab[i].size <= MAXFILE * BSIZE && off + n <= MAXFILE * BSIZE
    ensures var size := f.tab[i].size;
            |Missing(f, i, off, n)| == NBlocks(if off + n > size then off + n else size) - NBlocks(size)
  {
    hide Ref, NeededBy, Touched, NBlocks;
    var size := f.tab[i].size;
    var size' := if off + n > size then off + n else size;
    NBlocksGrows(size, size');
    NBlocksMost(size');
    RangeSize(NBlocks(size), NBlocks(size'));
    forall l | 0 <= l < SLOTS ensures Touched(off, n, l) && Ref(f, i, l) == 0 <==> NBlocks(size) <= l < NBlocks(size') {
      NeededGrows(size, off, n, l);
      NeededRange(size, l);
      NeededRange(size', l);
    }
    assert Missing(f, i, off, n) == Range(NBlocks(size), NBlocks(size'));
  }

  lemma NBlocksMost(size: nat)
    requires size <= MAXFILE * BSIZE
    ensures NBlocks(size) <= SLOTS
  {
  }

  /** The blocks of one inode. */
  ghost function BlocksOf(owner: map<nat, Slot>, i: nat): set<nat> {
    set b | b in owner && owner[b].inum == i
  }

  ghost function BlocksBefore(owner: map<nat, Slot>, i: nat): set<nat> {
    set b | b in owner && owner[b].inum < i
  }

  lemma BlocksOfSize(f: Fs, owner: map<nat, Slot>, i: nat)
    requires Owned(f, owner) && i < f.sb.ninodes && Mapped(f, i) && f.tab[i].size <= MAXFILE * BSIZE
    ensures |BlocksOf(owner, i)| == NBlocks(f.tab[i].size)
  {
    hide Ref, NeededBy, NBlocks, Used;
    var n := NBlocks(f.tab[i].size);
    var m := map b | b in owner && owner[b].inum == i :: owner[b].k;
    forall a, b | a in m && b in m && m[a] == m[b] ensures a == b {
      assert OwnedBlock(f, owner[a], a) && OwnedBlock(f, owner[b], b);
    }
    ImageSize(m);
    NBlocksMost(f.tab[i].size);
    forall l | l in m.Values ensures l in Range(0, n) {
      var b :| b in m && m[b] == l;
      assert OwnedBlock(f, owner[b], b);
      NeededRange(f.tab[i].size, l);
    }
    forall l | l in Range(0, n) ensures l in m.Values {
      NeededRange(f.tab[i].size, l);
      var r := Ref(f, i, l);
      assert r in m && m[r] == l;
    }
    assert m.Values == Range(0, n);
    RangeSize(0, n);
    assert m.Keys == BlocksOf(owner, i);
  }

  lemma {:induction false} BlocksBeforeSize(f: Fs, owner: map<nat, Slot>, c: seq<seq<Byte>>, n: nat)
    requires Owned(f, owner) && n <= f.sb.ninodes && |c| == n
    requires forall j :: 0 <= j < n ==> Mapped(f, j) && f.tab[j].size == |c[j]| <= MAXFILE * BSIZE
    ensures |BlocksBefore(owner, n)| == Total(c)
  {
    hide Owned, Mapped, NBlocks;
    if n == 0 {
      assert BlocksBefore(owner, 0) == {};
    } else {
      var m := n - 1;
      BlocksBeforeSize(f, owner, c[..m], m);
      BlocksOfSize(f, owner, m);
      assert BlocksBefore(owner, n) == BlocksBefore(owner, m) + BlocksOf(owner, m);
      assert BlocksBefore(owner, m) !! BlocksOf(owner, m);
    }
  }

  /** Where all files have just the blocks of their sizes, the others are free. */
  lemma FreeCount(f: Fs, owner: map<nat, Slot>, c: seq<seq<Byte>>)
    requires Owned(f, owner) && |c| == f.sb.ninodes
    requires forall j :: 0 <= j < |c| ==> Mapped(f, j) && f.tab[j].size == |c[j]| <= MAXFILE * BSIZE
    ensures |FreeBlocks(f)| == Capacity(f.sb) - Total(c)
  {
    hide Ref, Mapped, Used;
    BlocksBeforeSize(f, owner, c, |c|);
    forall b | b in owner ensures f.sb.DataStart() <= b < f.sb.size && owner[b].inum < f.sb.ninodes {
      assert OwnedBlock(f, owner[b], b);
    }
    assert BlocksBefore(owner, |c|) == owner.Keys;
    RangeSize(f.sb.DataStart(), f.sb.size);
    assert FreeBlocks(f) == Range(f.sb.DataStart(), f.sb.size) - owner.Keys;
    assert owner.Keys <= Range(f.sb.DataStart(), f.sb.size);
  }
}
