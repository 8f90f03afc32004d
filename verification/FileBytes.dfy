/** readi, writei and itrunc of fs.c, and what they do to files seen as byte sequences. */
module FileBytes {
  import opened Blocks
  import opened Options
  import opened FileSystem

  // ----- Writing into one mapped block -----

  /** memmove(bp->data + p, bytes, |bytes|); log_write(bp) */
  function Patch(f: Fs, r: nat, p: nat, bytes: seq<Byte>): (g: Fs)
    requires Shape(f) && r < f.sb.size && p + |bytes| <= BSIZE
    ensures Shape(g) && g.sb == f.sb && g.tab == f.tab
  {
    SetBlock(f, r, f.blk[r][..p] + bytes + f.blk[r][p + |bytes|..])
  }

  /** Block r holds file block bn of inode i. */
  predicate Holds(f: Fs, i: nat, bn: nat, r: nat)
    requires Shape(f)
  {
    i < f.sb.ninodes && bn < MAXFILE && r != 0 && Ref(f, i, SlotOf(bn)) == r
  }

  lemma HoldsOwned(f: Fs, owner: map<nat, Slot>, i: nat, bn: nat, r: nat)
    requires Owned(f, owner) && Holds(f, i, bn, r)
    ensures r in owner && owner[r] == Slot(i, SlotOf(bn)) && f.sb.DataStart() <= r < f.sb.size
  {
    assert Ref(f, i, SlotOf(bn)) != 0;
    assert OwnedBlock(f, owner[r], r);
  }

  lemma PatchRef(f: Fs, owner: map<nat, Slot>, i: nat, bn: nat, r: nat, p: nat, bytes: seq<Byte>, j: nat, l: nat)
    requires Owned(f, owner) && Holds(f, i, bn, r) && r < f.sb.size && p + |bytes| <= BSIZE
    requires j < f.sb.ninodes && l < SLOTS
    ensures Ref(Patch(f, r, p, bytes), j, l) == Ref(f, j, l)
  {
    HoldsOwned(f, owner, i, bn, r);
    hide Owned;
    if f.tab[j].addrs[INDIRECT] != 0 {
      IndirectOwned(f, owner, j);
    }
  }

  lemma PatchOwned(f: Fs, owner: map<nat, Slot>, i: nat, bn: nat, r: nat, p: nat, bytes: seq<Byte>)
    requires Owned(f, owner) && Holds(f, i, bn, r) && r < f.sb.size && p + |bytes| <= BSIZE
    ensures Extends(f, owner, Patch(f, r, p, bytes), owner, i)
  {
    hide Ref, SetBlock;
    HoldsOwned(f, owner, i, bn, r);
    var g := Patch(f, r, p, bytes);
    forall j, l | 0 <= j < f.sb.ninodes && 0 <= l < SLOTS ensures Ref(g, j, l) == Ref(f, j, l) {
      PatchRef(f, owner, i, bn, r, p, bytes, j, l);
    }
    forall b | b in owner ensures OwnedBlock(g, owner[b], b) {
      assert OwnedBlock(f, owner[b], b);
    }
    forall b | 0 <= b < f.sb.DataStart() ensures g.blk[b] == f.blk[b] {
      PatchElsewhere(f, r, p, bytes, b);
    }
    forall b | 0 <= b < f.sb.size ensures Used(g, b) == Used(f, b) {
      BitmapInside(f.sb, b);
    }
  }

  lemma PatchElsewhere(f: Fs, r: nat, p: nat, bytes: seq<Byte>, b: nat)
    requires Shape(f) && r < f.sb.size && p + |bytes| <= BSIZE && b < f.sb.size && b != r
    ensures Patch(f, r, p, bytes).blk[b] == f.blk[b]
  {
  }

  /** Only the patched bytes of that file change. */
  lemma PatchPeek(f: Fs, owner: map<nat, Slot>, i: nat, off: nat, r: nat, bytes: seq<Byte>, j: nat, o: nat)
    requires Owned(f, owner) && Holds(f, i, off / BSIZE, r) && r < f.sb.size && off % BSIZE + |bytes| <= BSIZE
    requires j < f.sb.ninodes && o < MAXFILE * BSIZE
    ensures Peek(Patch(f, r, off % BSIZE, bytes), j, o) ==
              if j == i && off <= o < off + |bytes| then bytes[o - off] else Peek(f, j, o)
  {
    var p := off % BSIZE;
    PatchRef(f, owner, i, off / BSIZE, r, p, bytes, j, SlotOf(o / BSIZE));
    HoldsOwned(f, owner, i, off / BSIZE, r);
    var c := Ref(f, j, SlotOf(o / BSIZE));
    if c == r {
      assert owner[c] == Slot(j, SlotOf(o / BSIZE));
      SameSlot(o / BSIZE, off / BSIZE);
      SamePlace(off, o, |bytes|);
    } else if j == i && o / BSIZE == off / BSIZE {
      assert false;
    } else if j == i {
      SamePlace(off, o, |bytes|);
    }
  }

  lemma SameSlot(a: nat, b: nat)
    requires SlotOf(a) == SlotOf(b)
    ensures a == b
  {
  }

  lemma SamePlace(off: nat, o: nat, m: nat)
    requires off % BSIZE + m <= BSIZE
    ensures off <= o < off + m <==> o / BSIZE == off / BSIZE && off % BSIZE <= o % BSIZE < off % BSIZE + m
    ensures off <= o < off + m ==> o - off == o % BSIZE - off % BSIZE
  {
    var a, b := off / BSIZE, o / BSIZE;
    assert off == BSIZE * a + off % BSIZE && o == BSIZE * b + o % BSIZE;
  }

  // ----- writei -----

  function Min(a: nat, b: nat): nat {
    if a < b then a else b
  }

  /** How much of n bytes at off goes into the block of off. */
  function Chunk(off: nat, n: nat): (m: nat)
    ensures m <= n && off % BSIZE + m <= BSIZE && (n > 0 ==> m > 0)
  {
    Min(n, BSIZE - off % BSIZE)
  }

  /** One round of writei's loop. */
  function WriteChunk(f: Fs, i: nat, off: nat, src: seq<Byte>): (r: Option<Fs>)
    requires Shape(f) && i < f.sb.ninodes
    ensures r.Some? ==> Shape(r.value) && r.value.sb == f.sb
  {
    var g := Bmap(f, i, off / BSIZE);
    if g.None? || Ref(g.value, i, SlotOf(off / BSIZE)) >= f.sb.size then None
    else Some(Patch(g.value, Ref(g.value, i, SlotOf(off / BSIZE)), off % BSIZE, src[..Chunk(off, |src|)]))
  }

  /** writei's loop. */
  function WriteAll(f: Fs, i: nat, off: nat, src: seq<Byte>): (r: Option<Fs>)
    requires Shape(f) && i < f.sb.ninodes
    ensures r.Some? ==> Shape(r.value) && r.value.sb == f.sb
    decreases |src|
  {
    if src == [] then Some(f)
    else
      var m := Chunk(off, |src|);
      var g := WriteChunk(f, i, off, src);
      if g.None? then None else WriteAll(g.value, i, off + m, src[m..])
  }

  /** The bytes of src are at off in file i, and nothing else changed in any file. */
  ghost predicate Spliced(f: Fs, g: Fs, i: nat, off: nat, src: seq<Byte>)
    requires Shape(f) && Shape(g) && g.sb == f.sb
  {
    forall j, o :: 0 <= j < f.sb.ninodes && 0 <= o < MAXFILE * BSIZE ==>
      Peek(g, j, o) == if j == i && off <= o < off + |src| then src[o - off] else Peek(f, j, o)
  }

  lemma WriteChunkSplices(f: Fs, owner: map<nat, Slot>, i: nat, off: nat, src: seq<Byte>) returns (owner': map<nat, Slot>)
    requires Owned(f, owner) && i < f.sb.ninodes
    ensures WriteChunk(f, i, off, src).Some? ==>
              var g := WriteChunk(f, i, off, src).value;
              Extends(f, owner, g, owner', i) && Spliced(f, g, i, off, src[..Chunk(off, |src|)])
              && Ref(g, i, SlotOf(off / BSIZE)) != 0
  {
    hide Bmap, Ref, Peek, Patch, Owned, SlotsOwned, OwnersHold, BitmapExact;
    OwnedShape(f, owner);
    owner' := BmapExtends(f, owner, i, off / BSIZE);
    if WriteChunk(f, i, off, src).Some? {
      var h := Bmap(f, i, off / BSIZE).value;
      var r := Ref(h, i, SlotOf(off / BSIZE));
      var bytes := src[..Chunk(off, |src|)];
      PatchOwned(h, owner', i, off / BSIZE, r, off % BSIZE, bytes);
      PatchRef(h, owner', i, off / BSIZE, r, off % BSIZE, bytes, i, SlotOf(off / BSIZE));
      var g := Patch(h, r, off % BSIZE, bytes);
      ExtendsTrans(f, owner, h, owner', g, owner', i);
      forall j, o | 0 <= j < f.sb.ninodes && 0 <= o < MAXFILE * BSIZE
        ensures Peek(g, j, o) == if j == i && off <= o < off + |bytes| then bytes[o - off] else Peek(f, j, o)
      {
        PatchPeek(h, owner', i, off, r, bytes, j, o);
      }
    }
  }

  /** writei's loop puts the bytes where they belong, across block boundaries and over
      the direct and indirect blocks, and leaves every other byte of every file alone. */
  lemma {:induction false} WriteAllSplices(f: Fs, owner: map<nat, Slot>, i: nat, off: nat, src: seq<Byte>)
    returns (owner': map<nat, Slot>)
    requires Owned(f, owner) && i < f.sb.ninodes
    ensures WriteAll(f, i, off, src).Some? ==>
              var g := WriteAll(f, i, off, src).value;
              Extends(f, owner, g, owner', i) && Spliced(f, g, i, off, src)
    decreases |src|
  {
    hide Peek, Owned, SlotsOwned, OwnersHold, BitmapExact, WriteChunk;
    OwnedShape(f, owner);
    owner' := owner;
    if src != [] {
      var m := Chunk(off, |src|);
      var o1 := WriteChunkSplices(f, owner, i, off, src);
      if WriteChunk(f, i, off, src).Some? {
        var h := WriteChunk(f, i, off, src).value;
        owner' := WriteAllSplices(h, o1, i, off + m, src[m..]);
        if WriteAll(f, i, off, src).Some? {
          var g := WriteAll(f, i, off, src).value;
          ExtendsTrans(f, owner, h, o1, g, owner', i);
          SplicedTwice(f, h, g, i, off, src, m);
        }
      }
    }
  }

  lemma SplicedTwice(f: Fs, h: Fs, g: Fs, i: nat, off: nat, src: seq<Byte>, m: nat)
    requires Shape(f) && Shape(h) && Shape(g) && g.sb == f.sb && h.sb == f.sb && m <= |src|
    requires Spliced(f, h, i, off, src[..m]) && Spliced(h, g, i, off + m, src[m..])
    ensures Spliced(f, g, i, off, src)
  {
    hide Peek;
    forall j, o | 0 <= j < f.sb.ninodes && 0 <= o < MAXFILE * BSIZE
      ensures Peek(g, j, o) == if j == i && off <= o < off + |src| then src[o - off] else Peek(f, j, o)
    {
      assert Peek(h, j, o) == if j == i && off <= o < off + m then src[..m][o - off] else Peek(f, j, o);
      assert Peek(g, j, o) == if j == i && off + m <= o < off + |src| then src[m..][o - off - m] else Peek(h, j, o);
    }
  }

  /** writei: the new file system and the return value. */
  function Writei(f: Fs, i: nat, off: Word, src: seq<Byte>): (r: Option<(Fs, int)>)
    requires Shape(f) && i < f.sb.ninodes
    ensures r.Some? ==> Shape(r.value.0) && r.value.0.sb == f.sb
    ensures r.Some? && r.value.1 >= 0 ==> off + |src| <= MAXFILE * BSIZE
    ensures r.Some? && r.value.1 < 0 ==> r.value == (f, -1)
  {
    if off > f.tab[i].size || off + |src| >= 0x1_0000_0000 then Some((f, -1))
    else if off + |src| > MAXFILE * BSIZE then Some((f, -1))
    else
      var g := WriteAll(f, i, off, src);
      if g.None? then None
      else if |src| > 0 && off + |src| > g.value.tab[i].size then Some((Iupdate(Resize(g.value, i, off + |src|), i), |src|))
      else Some((g.value, |src|))
  }

  function Resize(f: Fs, i: nat, size: Word): (g: Fs)
    requires Shape(f) && i < f.sb.ninodes
    ensures Shape(g) && g.sb == f.sb
  {
    f.(tab := f.tab[i := f.tab[i].(size := size)])
  }

  lemma ResizeSame(f: Fs, owner: map<nat, Slot>, i: nat, size: Word)
    requires Owned(f, owner) && i < f.sb.ninodes
    ensures Owned(Resize(f, i, size), owner) && SamePeeks(f, Resize(f, i, size))
    ensures forall j, l :: 0 <= j < f.sb.ninodes && 0 <= l < SLOTS ==> Ref(Resize(f, i, size), j, l) == Ref(f, j, l)
  {
    var g := Resize(f, i, size);
    forall j, l | 0 <= j < f.sb.ninodes && 0 <= l < SLOTS ensures Ref(g, j, l) == Ref(f, j, l) {
    }
    hide Ref;
    forall b | b in owner ensures OwnedBlock(g, owner[b], b) {
      assert OwnedBlock(f, owner[b], b);
    }
    forall b | 0 <= b < f.sb.size ensures Used(g, b) == Used(f, b) {
    }
  }

  /** A file as the sequence of its bytes. */
  function Bytes(f: Fs, i: nat): (bs: seq<Byte>)
    requires Shape(f) && i < f.sb.ninodes && f.tab[i].size <= MAXFILE * BSIZE
    ensures |bs| == f.tab[i].size && forall o :: 0 <= o < |bs| ==> bs[o] == Peek(f, i, o)
  {
    seq(f.tab[i].size, o requires 0 <= o < f.tab[i].size => Peek(f, i, o))
  }

  function Splice(bs: seq<Byte>, off: nat, src: seq<Byte>): seq<Byte>
    requires off <= |bs|
  {
    bs[..off] + src + (if off + |src| < |bs| then bs[off + |src|..] else [])
  }

  predicate SizesOk(f: Fs) {
    forall i :: 0 <= i < |f.tab| ==> f.tab[i].size <= MAXFILE * BSIZE
  }

  /** What a successful writei leaves: the spliced file, and every other file as it was. */
  ghost predicate Rewritten(f: Fs, g: Fs, i: nat, off: nat, src: seq<Byte>)
    requires Shape(f) && Shape(g) && g.sb == f.sb && SizesOk(f) && i < f.sb.ninodes && off <= f.tab[i].size
  {
    && SizesOk(g) && Bytes(g, i) == Splice(Bytes(f, i), off, src)
    && (forall j :: 0 <= j < f.sb.ninodes && j != i ==> g.tab[j] == f.tab[j] && Bytes(g, j) == Bytes(f, j))
  }

  lemma SplicedBytes(f: Fs, g: Fs, i: nat, off: nat, src: seq<Byte>)
    requires Shape(f) && Shape(g) && g.sb == f.sb && SizesOk(f) && i < f.sb.ninodes && off <= f.tab[i].size
    requires Spliced(f, g, i, off, src) && off + |src| <= MAXFILE * BSIZE
    requires forall j :: 0 <= j < f.sb.ninodes && j != i ==> g.tab[j] == f.tab[j]
    requires g.tab[i].size == (if |src| > 0 && off + |src| > f.tab[i].size then off + |src| else f.tab[i].size)
    ensures Rewritten(f, g, i, off, src)
  {
    hide Peek;
    assert Bytes(g, i) == Splice(Bytes(f, i), off, src);
    forall j | 0 <= j < f.sb.ninodes && j != i ensures Bytes(g, j) == Bytes(f, j) {
    }
  }

  /** writei fails, and then changes nothing, exactly when it starts after the end of the
      file or would pass the largest size; otherwise it writes all of src at off. */
  lemma WriteiCorrect(f: Fs, owner: map<nat, Slot>, i: nat, off: Word, src: seq<Byte>) returns (owner': map<nat, Slot>)
    requires Owned(f, owner) && SizesOk(f) && i < f.sb.ninodes
    ensures Writei(f, i, off, src).Some? ==>
              var (g, r) := Writei(f, i, off, src).value;
              && Owned(g, owner')
              && (r < 0 <==> off > f.tab[i].size || off + |src| > MAXFILE * BSIZE)
              && (if r < 0 then g == f else r == |src| && Rewritten(f, g, i, off, src))
  {
    hide WriteAll, Owned, SlotsOwned, OwnersHold, BitmapExact, Peek, Spliced, Iupdate, Rewritten;
    OwnedShape(f, owner);
    owner' := owner;
    if off <= f.tab[i].size && off + |src| <= MAXFILE * BSIZE {
      owner' := WriteAllSplices(f, owner, i, off, src);
      if WriteAll(f, i, off, src).Some? {
        var g := WriteAll(f, i, off, src).value;
        if |src| > 0 && off + |src| > f.tab[i].size {
          var h := Resize(g, i, off + |src|);
          ResizeSame(g, owner', i, off + |src|);
          IupdateOwned(h, owner', i);
          SplicedSame(f, g, h, i, off, src);
          SplicedSame(f, h, Iupdate(h, i), i, off, src);
          SplicedBytes(f, Iupdate(h, i), i, off, src);
        } else {
          SplicedBytes(f, g, i, off, src);
        }
      }
    }
  }

  lemma SplicedSame(f: Fs, g: Fs, h: Fs, i: nat, off: nat, src: seq<Byte>)
    requires Shape(f) && Shape(g) && Shape(h) && g.sb == f.sb && h.sb == f.sb
    requires Spliced(f, g, i, off, src) && SamePeeks(g, h)
    ensures Spliced(f, h, i, off, src)
  {
    hide Peek;
  }
}
