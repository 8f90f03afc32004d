/** filewrite of file.c: a write is cut into transactions that fit the log, and together
    they are the write of the whole. */
module FileWrite {
  import opened Blocks
  import opened Counting
  import opened Options
  import opened FileSystem
  import opened FileBytes
  import opened FileMaps
  import Recovery

  /** ((LOGSIZE-1-1-2) / 2) * 512 */
  const MAXWRITE: nat := (Recovery.LOGSIZE - 1 - 1 - 2) / 2 * 512

  /** begin_trans finds the log empty. */
  function Begin(f: Fs): (g: Fs)
    ensures Shape(f) ==> Shape(g)
  {
    f.(logged := {})
  }

  /** filewrite's loop on an inode: the file system, the new offset, and whether all of
      src was written. Every round is one transaction. */
  function Filewrite(f: Fs, i: nat, off: Word, src: seq<Byte>): (r: Option<(Fs, Word, bool)>)
    requires Shape(f) && i < f.sb.ninodes
    ensures r.Some? ==> Shape(r.value.0) && r.value.0.sb == f.sb
    decreases |src|
  {
    if src == [] then Some((f, off, true))
    else
      var n1 := Min(|src|, MAXWRITE);
      var w := Writei(Begin(f), i, off, src[..n1]);
      if w.None? then None
      else if w.value.1 < 0 then Some((w.value.0, off, false))
      else Filewrite(w.value.0, i, off + n1, src[n1..])
  }

  /** Up to three blocks of bytes are written in one transaction, wherever they lie. */
  lemma OneTransaction(f: Fs, i: nat, off: Word, src: seq<Byte>)
    requires Shape(f) && i < f.sb.ninodes && 0 < |src| <= 3 * BSIZE
    ensures var w := Writei(Begin(f), i, off, src);
            Filewrite(f, i, off, src) ==
            if w.None? then None else if w.value.1 < 0 then Some((w.value.0, off, false)) else Some((w.value.0, off + |src|, true))
  {
    hide Writei;
    assert src[..|src|] == src && src[|src|..] == [];
  }

  // ----- The sectors one transaction logs -----

  predicate InBitmap(sb: Super, s: nat) {
    sb.BBlock(0) <= s < sb.DataStart()
  }

  /** Every sector logged since f is a bitmap block or a block of inode i that the n
      bytes at off need. */
  ghost predicate LogsOnly(f: Fs, g: Fs, i: nat, off: nat, n: nat)
    requires Shape(f) && Shape(g) && g.sb == f.sb && i < f.sb.ninodes
  {
    forall s :: s in g.logged ==>
      s in f.logged || InBitmap(f.sb, s) || exists l :: 0 <= l < SLOTS && Touched(off, n, l) && s == Ref(g, i, l) != 0
  }

  lemma FillLogs(f: Fs, owner: map<nat, Slot>, i: nat, k: nat, s: nat)
    requires Owned(f, owner) && i < f.sb.ninodes && k < SLOTS && Fill.requires(f, i, k) && Fill(f, i, k).Some?
    requires k > INDIRECT ==> f.tab[i].addrs[INDIRECT] != 0
    requires s in Fill(f, i, k).value.logged && s !in f.logged
    ensures var g := Fill(f, i, k).value;
            InBitmap(f.sb, s) || s == Ref(g, i, k) != 0 || (k > INDIRECT && s == Ref(g, i, INDIRECT) != 0)
  {
    var b := FirstFree(f, 0);
    FreeIsData(f, owner);
    BitmapInside(f.sb, b);
    AttachRef(f, owner, b, i, k, i, k);
    AttachRef(f, owner, b, i, k, i, INDIRECT);
  }

  lemma BmapLogs(f: Fs, owner: map<nat, Slot>, i: nat, bn: nat, s: nat)
    requires Owned(f, owner) && i < f.sb.ninodes && Bmap(f, i, bn).Some?
    requires s in Bmap(f, i, bn).value.logged && s !in f.logged
    ensures var g := Bmap(f, i, bn).value;
            InBitmap(f.sb, s) || exists l :: 0 <= l < SLOTS && Needs(bn, l) && s == Ref(g, i, l) != 0
  {
    hide Fill, Ref, Owned, InBitmap;
    OwnedShape(f, owner);
    assert Needs(bn, SlotOf(bn));
    if bn < NDIRECT {
      FillLogs(f, owner, i, bn, s);
    } else {
      assert Needs(bn, INDIRECT);
      var o1 := FillExtends(f, owner, i, INDIRECT);
      var h := Fill(f, i, INDIRECT).value;
      PointerRef(h, i);
      var o2 := FillExtends(h, o1, i, bn + 1);
      var g := Fill(h, i, bn + 1).value;
      ExtendsRef(h, o1, g, o2, i, i, INDIRECT);
      if s in h.logged {
        FillLogs(f, owner, i, INDIRECT, s);
      } else {
        FillLogs(h, o1, i, bn + 1, s);
      }
    }
  }

  lemma ChunkLogs(f: Fs, owner: map<nat, Slot>, i: nat, off: nat, src: seq<Byte>, s: nat)
    requires Owned(f, owner) && i < f.sb.ninodes && WriteChunk(f, i, off, src).Some?
    requires s in WriteChunk(f, i, off, src).value.logged && s !in f.logged
    ensures var g := WriteChunk(f, i, off, src).value;
            InBitmap(f.sb, s) || exists l :: 0 <= l < SLOTS && Needs(off / BSIZE, l) && s == Ref(g, i, l) != 0
  {
    hide Bmap, Ref, Owned, InBitmap;
    OwnedShape(f, owner);
    var bn := off / BSIZE;
    var o1 := BmapExtends(f, owner, i, bn);
    var h := Bmap(f, i, bn).value;
    var r, bytes := Ref(h, i, SlotOf(bn)), src[..Chunk(off, |src|)];
    PatchRef(h, o1, i, bn, r, off % BSIZE, bytes, i, SlotOf(bn));
    assert Needs(bn, SlotOf(bn));
    if s in h.logged {
      BmapLogs(f, owner, i, bn, s);
      if !InBitmap(f.sb, s) {
        var l :| 0 <= l < SLOTS && Needs(bn, l) && s == Ref(h, i, l) != 0;
        PatchRef(h, o1, i, bn, r, off % BSIZE, bytes, i, l);
      }
    }
  }

  lemma {:induction false} WriteAllLogs(f: Fs, owner: map<nat, Slot>, i: nat, off: nat, src: seq<Byte>)
    requires Owned(f, owner) && i < f.sb.ninodes && WriteAll(f, i, off, src).Some?
    ensures LogsOnly(f, WriteAll(f, i, off, src).value, i, off, |src|)
    decreases |src|
  {
    hide Ref, Owned, WriteChunk, InBitmap, Needs, Touched, Chunk;
    OwnedShape(f, owner);
    if src != [] {
      var m := Chunk(off, |src|);
      var o1 := WriteChunkSplices(f, owner, i, off, src);
      var h := WriteChunk(f, i, off, src).value;
      WriteAllLogs(h, o1, i, off + m, src[m..]);
      var o2 := WriteAllSplices(h, o1, i, off + m, src[m..]);
      var g := WriteAll(f, i, off, src).value;
      forall s | s in g.logged && s !in f.logged && !InBitmap(f.sb, s)
        ensures exists l :: 0 <= l < SLOTS && Touched(off, |src|, l) && s == Ref(g, i, l) != 0
      {
        if s in h.logged {
          ChunkLogs(f, owner, i, off, src, s);
          var l :| 0 <= l < SLOTS && Needs(off / BSIZE, l) && s == Ref(h, i, l) != 0;
          ExtendsRef(h, o1, g, o2, i, i, l);
          TouchedSplit(off, |src|, l);
        } else {
          var l :| 0 <= l < SLOTS && Touched(off + m, |src[m..]|, l) && s == Ref(g, i, l) != 0;
          TouchedSplit(off, |src|, l);
        }
      }
    }
  }

  /** The blocks a chunk of at most MAXWRITE bytes at off can need. */
  ghost function DataBlocks(g: Fs, i: nat, bn: nat, count: nat): (d: set<nat>)
    requires Shape(g) && i < g.sb.ninodes
    ensures |d| <= count
    ensures forall x :: bn <= x < bn + count && x < MAXFILE ==> Ref(g, i, SlotOf(x)) in d
  {
    if count == 0 then {}
    else if bn + count - 1 < MAXFILE then DataBlocks(g, i, bn, count - 1) + {Ref(g, i, SlotOf(bn + count - 1))}
    else DataBlocks(g, i, bn, count - 1)
  }

  /** A transaction of filewrite, at any offset and alignment, logs at most seven sectors
      where one block holds the whole bitmap: up to four data blocks, the indirect block,
      the bitmap and the inode. */
  lemma TransactionBound(f: Fs, owner: map<nat, Slot>, i: nat, off: Word, src: seq<Byte>)
    requires Owned(f, owner) && i < f.sb.ninodes && f.sb.size < BPB && f.logged == {} && |src| <= MAXWRITE
    requires Writei(f, i, off, src).Some?
    ensures |Writei(f, i, off, src).value.0.logged| <= 7
  {
    hide Ref, Owned, WriteAll, InBitmap;
    OwnedShape(f, owner);
    if Writei(f, i, off, src).value.1 >= 0 {
      WriteAllLogs(f, owner, i, off, src);
      var g := WriteAll(f, i, off, src).value;
      var bn := off / BSIZE;
      var data := DataBlocks(g, i, bn, 4);
      var all := data + {f.sb.BBlock(0)} + {Ref(g, i, INDIRECT)} + {f.sb.IBlock(i)};
      forall s | s in g.logged ensures s in all {
        OneBitmap(f.sb, s);
        if !InBitmap(f.sb, s) {
          var l :| 0 <= l < SLOTS && Touched(off, |src|, l) && s == Ref(g, i, l) != 0;
          NearBlocks(off, |src|, l);
        }
      }
      SubsetSize(Writei(f, i, off, src).value.0.logged, all);
    }
  }

  lemma OneBitmap(sb: Super, s: nat)
    requires sb.size < BPB
    ensures InBitmap(sb, s) ==> s == sb.BBlock(0)
  {
  }

  lemma NearBlocks(off: nat, n: nat, l: nat)
    requires n <= MAXWRITE && l < SLOTS && Touched(off, n, l)
    ensures l == INDIRECT || exists x :: off / BSIZE <= x < off / BSIZE + 4 && x < MAXFILE && l == SlotOf(x)
  {
    var bn :| off / BSIZE <= bn && bn * BSIZE < off + n && Needs(bn, l);
    assert bn < off / BSIZE + 4;
    if l != INDIRECT {
      assert l == SlotOf(bn);
    }
  }

  // ----- The whole write -----

  lemma BeginSame(f: Fs, owner: map<nat, Slot>)
    requires Owned(f, owner)
    ensures Owned(Begin(f), owner) && SamePeeks(f, Begin(f))
    ensures forall j, l :: 0 <= j < f.sb.ninodes && 0 <= l < SLOTS ==> Ref(Begin(f), j, l) == Ref(f, j, l)
  {
    var g := Begin(f);
    forall j, l | 0 <= j < f.sb.ninodes && 0 <= l < SLOTS ensures Ref(g, j, l) == Ref(f, j, l) {
    }
    forall b | b in owner ensures OwnedBlock(g, owner[b], b) {
      assert OwnedBlock(f, owner[b], b);
    }
    forall b | 0 <= b < f.sb.size ensures Used(g, b) == Used(f, b) {
    }
  }

  lemma SpliceTwice(bs: seq<Byte>, off: nat, a: seq<Byte>, b: seq<Byte>)
    requires off <= |bs|
    ensures off + |a| <= |Splice(bs, off, a)| && Splice(Splice(bs, off, a), off + |a|, b) == Splice(bs, off, a + b)
  {
  }

  lemma RewrittenTwice(f: Fs, h: Fs, g: Fs, i: nat, off: nat, a: seq<Byte>, b: seq<Byte>)
    requires Shape(f) && Shape(h) && Shape(g) && h.sb == f.sb && g.sb == f.sb && SizesOk(f) && i < f.sb.ninodes
    requires off <= f.tab[i].size && Rewritten(f, h, i, off, a)
    requires off + |a| <= h.tab[i].size && Rewritten(h, g, i, off + |a|, b)
    ensures Rewritten(f, g, i, off, a + b)
  {
    hide Peek, Bytes, Splice;
    SpliceTwice(Bytes(f, i), off, a, b);
  }

  lemma RewrittenBegin(f: Fs, g: Fs, owner: map<nat, Slot>, i: nat, off: nat, src: seq<Byte>)
    requires Owned(f, owner) && Shape(g) && g.sb == f.sb && SizesOk(f) && i < f.sb.ninodes && off <= f.tab[i].size
    requires Rewritten(Begin(f), g, i, off, src)
    ensures Rewritten(f, g, i, off, src)
  {
    hide Peek;
    BeginSame(f, owner);
    forall j | 0 <= j < f.sb.ninodes ensures Bytes(Begin(f), j) == Bytes(f, j) {
    }
  }

  /** How many bytes filewrite gets through: all of them, or the whole chunks that fit
      the largest file, or none after the end of the file. */
  function Done(size: nat, off: nat, n: nat): (d: nat)
    ensures d <= n
    decreases n
  {
    if n == 0 || off > size || off + Min(n, MAXWRITE) > MAXFILE * BSIZE then 0
    else
      var n1 := Min(n, MAXWRITE);
      n1 + Done(if off + n1 > size then off + n1 else size, off + n1, n - n1)
  }

  lemma {:induction false} DoneAll(size: nat, off: nat, n: nat)
    requires size <= MAXFILE * BSIZE
    ensures Done(size, off, n) == n <==> n == 0 || (off <= size && off + n <= MAXFILE * BSIZE)
    decreases n
  {
    if n > 0 && off <= size && off + Min(n, MAXWRITE) <= MAXFILE * BSIZE {
      var n1 := Min(n, MAXWRITE);
      DoneAll(if off + n1 > size then off + n1 else size, off + n1, n - n1);
    }
  }

  /** What filewrite has done on inode i when it ends in g at offset off'. */
  ghost predicate Outcome(f: Fs, owner: map<nat, Slot>, i: nat, off: nat, src: seq<Byte>, g: Fs, off': nat, ok: bool)
    requires Shape(f) && SizesOk(f) && i < f.sb.ninodes
  {
    var d := Done(f.tab[i].size, off, |src|);
    && Owned(g, owner) && g.sb == f.sb && off' == off + d && ok == (d == |src|)
    && (off <= f.tab[i].size ==> Rewritten(f, g, i, off, src[..d]))
    && (off > f.tab[i].size ==> SamePeeks(f, g) && g.tab == f.tab)
  }

  lemma OutcomeNothing(f: Fs, owner: map<nat, Slot>, i: nat, off: nat, src: seq<Byte>, g: Fs)
    requires Owned(f, owner) && SizesOk(f) && i < f.sb.ninodes && Owned(g, owner) && g.sb == f.sb
    requires SamePeeks(f, g) && g.tab == f.tab && Done(f.tab[i].size, off, |src|) == 0
    ensures Outcome(f, owner, i, off, src, g, off, src == [])
  {
    if off <= f.tab[i].size {
      hide Peek;
      assert src[..0] == [];
      assert Splice(Bytes(f, i), off, []) == Bytes(f, i);
      SameBytes(f, g);
    }
  }

  /** The first chunk, then the rest. */
  lemma OutcomeThen(f: Fs, h: Fs, owner: map<nat, Slot>, i: nat, off: nat, src: seq<Byte>, g: Fs, off': nat, ok: bool)
    requires Shape(f) && SizesOk(f) && i < f.sb.ninodes && src != [] && off <= f.tab[i].size
    requires var n1 := Min(|src|, MAXWRITE);
             && off + n1 <= MAXFILE * BSIZE && Shape(h) && h.sb == f.sb && Rewritten(f, h, i, off, src[..n1])
             && SizesOk(h) && Outcome(h, owner, i, off + n1, src[n1..], g, off', ok)
    ensures Outcome(f, owner, i, off, src, g, off', ok)
  {
    hide Owned, Peek, Rewritten;
    OwnedShape(g, owner);
    var n1 := Min(|src|, MAXWRITE);
    RewrittenSize(f, h, i, off, src[..n1]);
    var d := Done(h.tab[i].size, off + n1, |src| - n1);
    RewrittenTwice(f, h, g, i, off, src[..n1], src[n1..][..d]);
    assert src[..n1] + src[n1..][..d] == src[..n1 + d];
  }

  /** filewrite through its transactions is one write of the first Done bytes, which are
      all of src exactly when the whole write fits; every other file is left alone. */
  lemma {:induction false} FilewriteCorrect(f: Fs, owner: map<nat, Slot>, i: nat, off: Word, src: seq<Byte>)
    returns (owner': map<nat, Slot>)
    requires Owned(f, owner) && SizesOk(f) && i < f.sb.ninodes
    ensures Filewrite(f, i, off, src).Some? ==>
              var r := Filewrite(f, i, off, src).value;
              Outcome(f, owner', i, off, src, r.0, r.1, r.2)
    decreases |src|
  {
    hide Owned, Writei, Rewritten, Peek, Ref, Outcome;
    OwnedShape(f, owner);
    owner' := owner;
    if src == [] {
      OutcomeNothing(f, owner, i, off, src, f);
    } else {
      BeginSame(f, owner);
      var n1 := Min(|src|, MAXWRITE);
      var w := Writei(Begin(f), i, off, src[..n1]);
      owner' := WriteiCorrect(Begin(f), owner, i, off, src[..n1]);
      if w.Some? {
        var h := w.value.0;
        if w.value.1 < 0 {
          owner' := owner;
          OutcomeNothing(f, owner, i, off, src, h);
        } else {
          RewrittenBegin(f, h, owner, i, off, src[..n1]);
          RewrittenSize(f, h, i, off, src[..n1]);
          owner' := FilewriteCorrect(h, owner', i, off + n1, src[n1..]);
          if Filewrite(f, i, off, src).Some? {
            var r := Filewrite(h, i, off + n1, src[n1..]).value;
            OutcomeThen(f, h, owner', i, off, src, r.0, r.1, r.2);
          }
        }
      }
    }
  }

  lemma SameBytes(f: Fs, g: Fs)
    requires Shape(f) && Shape(g) && g.sb == f.sb && SizesOk(f) && SamePeeks(f, g) && g.tab == f.tab
    ensures SizesOk(g) && forall j :: 0 <= j < f.sb.ninodes ==> Bytes(g, j) == Bytes(f, j)
  {
    hide Peek;
    forall j | 0 <= j < f.sb.ninodes ensures Bytes(g, j) == Bytes(f, j) {
      assert forall o :: 0 <= o < f.tab[j].size ==> Peek(g, j, o) == Peek(f, j, o);
    }
  }

  lemma RewrittenSize(f: Fs, g: Fs, i: nat, off: nat, src: seq<Byte>)
    requires Shape(f) && Shape(g) && g.sb == f.sb && SizesOk(f) && i < f.sb.ninodes && off <= f.tab[i].size
    requires Rewritten(f, g, i, off, src)
    ensures SizesOk(g) && g.tab[i].size == if off + |src| > f.tab[i].size then off + |src| else f.tab[i].size
  {
    hide Peek, Bytes;
    assert |Bytes(g, i)| == |Splice(Bytes(f, i), off, src)|;
  }
}
