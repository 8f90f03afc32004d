/** The loops of fs.c and file.c as they run, each proved to do what modules FileSystem,
    FileBytes, FileMaps, FileTrunc and FileWrite say of it. `blk` is the disk as bread
    returns it, `ino` the inodes; ok is false where the source panics. */
module FsRun {
  import opened Blocks
  import opened Options
  import opened FileSystem
  import opened FileBytes
  import opened FileMaps
  import opened FileTrunc
  import opened FileWrite

  class FileSys {
    const sb: Super
    var blk: seq<Block>
    var ino: seq<Inode>
    ghost var logged: set<nat>

    ghost function F(): Fs
      reads this
    {
      Fs(sb, blk, ino, logged)
    }

    constructor (f: Fs)
      requires Shape(f)
      ensures F() == f
    {
      sb, blk, ino, logged := f.sb, f.blk, f.tab, f.logged;
    }

    method LogWrite(b: nat, data: Block)
      requires Shape(F()) && b < sb.size
      modifies this`blk, this`logged
      ensures F() == SetBlock(old(F()), b, data)
    {
      blk := blk[b := data];
      logged := logged + {b};
    }

    /** balloc: the first clear bit of the bitmap, block by block. */
    method FindFree() returns (r: nat)
      requires Shape(F())
      ensures r == FirstFree(F(), 0)
    {
      hide FirstFree, Used, Shape, GetBit;
      ShapeLengths(F());
      var b := 0;
      while b < sb.size
        invariant b % BPB == 0
        invariant FirstFree(F(), 0) == FirstFree(F(), if b < sb.size then b else sb.size)
      {
        BitmapInside(sb, b);
        var bp := blk[b / BPB + sb.ninodes / IPB + 3];
        var bi := 0;
        while bi < BPB && b + bi < sb.size && GetBit(bp, bi)
          invariant 0 <= bi <= BPB && b + bi <= sb.size
          invariant FirstFree(F(), 0) == FirstFree(F(), b + bi)
        {
          BitAt(F(), b, bi);
          FreeStep(F(), b + bi);
          bi := bi + 1;
        }
        if bi < BPB && b + bi < sb.size {
          BitAt(F(), b, bi);
          FreeStep(F(), b + bi);
          return b + bi;
        }
        b := b + BPB;
      }
      FreeStep(F(), sb.size);
      return sb.size;
    }

    method Balloc() returns (ok: bool, r: nat)
      requires Shape(F())
      modifies this`blk, this`logged
      ensures ok == (FirstFree(old(F()), 0) < sb.size)
      ensures ok ==> r == FirstFree(old(F()), 0) && F() == Allocate(old(F()), r)
      ensures !ok ==> F() == old(F())
    {
      hide FirstFree;
      r := FindFree();
      ok := r < sb.size;
      if ok {
        BitmapInside(sb, r);
        var bb := r / BPB + sb.ninodes / IPB + 3;
        LogWrite(bb, SetBit(blk[bb], r % BPB));
        LogWrite(r, Zero());
      }
    }

    method Bfree(b: nat) returns (ok: bool)
      requires Shape(F())
      modifies this`blk, this`logged
      ensures ok == FileTrunc.Bfree(old(F()), b).Some?
      ensures F() == if ok then FileTrunc.Bfree(old(F()), b).value else old(F())
    {
      if b >= sb.size {
        return false;
      }
      BitmapInside(sb, b);
      var bb := b / BPB + sb.ninodes / IPB + 3;
      if !GetBit(blk[bb], b % BPB) {
        return false;
      }
      LogWrite(bb, ClearBit(blk[bb], b % BPB));
      ok := true;
    }

    /** The pointer bmap looks at. */
    method ReadSlot(i: nat, k: nat) returns (addr: nat)
      requires Shape(F()) && i < sb.ninodes && k < SLOTS
      ensures addr == Ref(F(), i, k)
    {
      if k <= INDIRECT {
        return ino[i].addrs[k];
      }
      var ind := ino[i].addrs[INDIRECT];
      if ind == 0 || ind >= sb.size {
        return 0;
      }
      return GetWord(blk[ind], k - INDIRECT - 1);
    }

    /** One pointer of bmap: allocate if it is zero. */
    method FillSlot(i: nat, k: nat) returns (ok: bool)
      requires Shape(F()) && i < sb.ninodes && k < SLOTS && (k > INDIRECT ==> ino[i].addrs[INDIRECT] < sb.size)
      modifies this`blk, this`ino, this`logged
      ensures ok == Fill(old(F()), i, k).Some?
      ensures ok ==> F() == Fill(old(F()), i, k).value
    {
      hide FirstFree, Used, Allocate;
      var w := ReadSlot(i, k);
      if w != 0 {
        return true;
      }
      var b: nat;
      ok, b := Balloc();
      if ok {
        if k <= INDIRECT {
          ino := ino[i := ino[i].(addrs := ino[i].addrs[k := b])];
        } else {
          var ind := ino[i].addrs[INDIRECT];
          LogWrite(ind, SetWord(blk[ind], k - INDIRECT - 1, b));
        }
      }
    }

    method Bmap(i: nat, bn: nat) returns (ok: bool, addr: nat)
      requires Shape(F()) && i < sb.ninodes
      modifies this`blk, this`ino, this`logged
      ensures ok == FileSystem.Bmap(old(F()), i, bn).Some?
      ensures ok ==> F() == FileSystem.Bmap(old(F()), i, bn).value && addr == Ref(F(), i, SlotOf(bn))
    {
      hide Fill;
      addr := 0;
      if bn < NDIRECT {
        ok := FillSlot(i, bn);
        if ok {
          addr := ReadSlot(i, bn);
        }
        return;
      }
      if bn >= MAXFILE {
        return false, 0;
      }
      ok := FillSlot(i, INDIRECT);
      if !ok {
        return;
      }
      if ino[i].addrs[INDIRECT] >= sb.size {
        return false, 0;
      }
      ok := FillSlot(i, bn + 1);
      if ok {
        addr := ReadSlot(i, bn + 1);
      }
    }

    method Iupdate(i: nat)
      requires Shape(F()) && i < sb.ninodes
      modifies this`blk, this`logged
      ensures F() == FileSystem.Iupdate(old(F()), i)
    {
      InodeInside(sb, i);
      LogWrite(i / IPB + 2, PutWords(blk[i / IPB + 2], 16 * (i % IPB), InodeWords(ino[i])));
    }

    /** writei on a file; r is its return value. */
    method Writei(i: nat, off: Word, src: seq<Byte>) returns (ok: bool, r: int)
      requires Shape(F()) && i < sb.ninodes
      modifies this`blk, this`ino, this`logged
      ensures ok == FileBytes.Writei(old(F()), i, off, src).Some?
      ensures ok ==> (F(), r) == FileBytes.Writei(old(F()), i, off, src).value
    {
      hide WriteAll, WriteChunk, FileSystem.Iupdate;
      if off > ino[i].size || off + |src| >= 0x1_0000_0000 {
        return true, -1;
      }
      if off + |src| > MAXFILE * BSIZE {
        return true, -1;
      }
      var tot, o := 0, off;
      while tot < |src|
        invariant 0 <= tot <= |src| && o == off + tot && Shape(F())
        invariant WriteAll(old(F()), i, off, src) == WriteAll(F(), i, o, src[tot..])
      {
        ghost var f := F();
        WriteStep(f, i, o, src[tot..]);
        ok := WriteOne(i, o, src[tot..]);
        if !ok {
          return false, 0;
        }
        var m := Chunk(o, |src| - tot);
        assert src[tot..][m..] == src[tot + m..];
        tot, o := tot + m, o + m;
      }
      WriteDone(F(), i, o);
      assert src[tot..] == [];
      if |src| > 0 && o > ino[i].size {
        ino := ino[i := ino[i].(size := o)];
        Iupdate(i);
      }
      ok, r := true, |src|;
    }

    /** One round of writei's loop. */
    method WriteOne(i: nat, off: nat, src: seq<Byte>) returns (ok: bool)
      requires Shape(F()) && i < sb.ninodes
      modifies this`blk, this`ino, this`logged
      ensures ok == WriteChunk(old(F()), i, off, src).Some?
      ensures ok ==> F() == WriteChunk(old(F()), i, off, src).value
    {
      hide FileSystem.Bmap, Ref;
      var addr: nat;
      ok, addr := Bmap(i, off / BSIZE);
      if !ok || addr >= sb.size {
        return false;
      }
      var m, p := Chunk(off, |src|), off % BSIZE;
      LogWrite(addr, blk[addr][..p] + src[..m] + blk[addr][p + m..]);
    }

    /** readi on a file; no bytes stand for its return of -1. */
    method Readi(i: nat, off: Word, n: Word) returns (ok: bool, dst: Option<seq<Byte>>)
      requires Shape(F()) && i < sb.ninodes
      modifies this`blk, this`ino, this`logged
      ensures ok == FileMaps.Readi(old(F()), i, off, n).Some?
      ensures ok ==> (F(), dst) == FileMaps.Readi(old(F()), i, off, n).value
    {
      hide ReadAll, FileSystem.Bmap, Ref;
      if off > ino[i].size || off + n >= 0x1_0000_0000 {
        return true, None;
      }
      var n' := if off + n > ino[i].size then ino[i].size - off else n;
      var tot, o, got := 0, off, [];
      AheadLaws([], [], ReadAll(F(), i, o, n'));
      while tot < n'
        invariant 0 <= tot <= n' && o == off + tot && Shape(F())
        invariant ReadAll(old(F()), i, off, n') == Ahead(got, ReadAll(F(), i, o, n' - tot))
      {
        ghost var f := F();
        ReadStep(f, i, o, n' - tot);
        var addr: nat;
        ok, addr := Bmap(i, o / BSIZE);
        if !ok || addr >= sb.size {
          return false, None;
        }
        var m := Chunk(o, n' - tot);
        var part := blk[addr][o % BSIZE..o % BSIZE + m];
        AheadLaws(got, part, ReadAll(F(), i, o + m, n' - tot - m));
        got := got + part;
        tot, o := tot + m, o + m;
      }
      ReadDone(F(), i, o);
      assert got + [] == got;
      return true, Some(got);
    }

    /** itrunc: free the direct blocks, then what the indirect block lists, then it. */
    method Itrunc(i: nat) returns (ok: bool)
      requires Shape(F()) && i < sb.ninodes
      modifies this`blk, this`ino, this`logged
      ensures ok == FileTrunc.Itrunc(old(F()), i).Some?
      ensures ok ==> F() == FileTrunc.Itrunc(old(F()), i).value
    {
      hide TruncDirect, TruncIndirect, FileTrunc.Bfree, FileSystem.Iupdate;
      var k := 0;
      while k < NDIRECT
        invariant 0 <= k <= NDIRECT && Shape(F())
        invariant TruncDirect(old(F()), i, 0) == TruncDirect(F(), i, k)
      {
        DirectStep(F(), i, k);
        if ino[i].addrs[k] != 0 {
          ok := Bfree(ino[i].addrs[k]);
          if !ok {
            return;
          }
          ino := ino[i := ino[i].(addrs := ino[i].addrs[k := 0])];
        }
        k := k + 1;
      }
      DirectDone(F(), i);
      ok := FreeIndirect(i);
      if !ok {
        return;
      }
      ino := ino[i := ino[i].(size := 0)];
      Iupdate(i);
    }

    method FreeIndirect(i: nat) returns (ok: bool)
      requires Shape(F()) && i < sb.ninodes
      modifies this`blk, this`ino, this`logged
      ensures ok == TruncPointer(old(F()), i).Some?
      ensures ok ==> F() == TruncPointer(old(F()), i).value
    {
      hide TruncIndirect, FileTrunc.Bfree;
      var ind := ino[i].addrs[INDIRECT];
      if ind == 0 {
        return true;
      }
      if ind >= sb.size {
        return false;
      }
      var a := blk[ind];
      var j := 0;
      while j < NINDIRECT
        invariant 0 <= j <= NINDIRECT && Shape(F()) && ino == old(ino)
        invariant TruncIndirect(old(F()), a, 0) == TruncIndirect(F(), a, j)
      {
        IndirectStep(F(), a, j);
        if GetWord(a, j) != 0 {
          ok := Bfree(GetWord(a, j));
          if !ok {
            return;
          }
        }
        j := j + 1;
      }
      IndirectDone(F(), a);
      ok := Bfree(ind);
      if ok {
        ino := ino[i := ino[i].(addrs := ino[i].addrs[INDIRECT := 0])];
      }
    }

    /** filewrite on an inode: at most MAXWRITE bytes a transaction. all is whether it
        returns the number of bytes it was given. */
    method Filewrite(i: nat, off: Word, src: seq<Byte>) returns (ok: bool, off': Word, all: bool)
      requires Shape(F()) && i < sb.ninodes
      modifies this`blk, this`ino, this`logged
      ensures ok == FileWrite.Filewrite(old(F()), i, off, src).Some?
      ensures ok ==> (F(), off', all) == FileWrite.Filewrite(old(F()), i, off, src).value
    {
      hide FileWrite.Filewrite, FileBytes.Writei;
      var k := 0;
      off' := off;
      while k < |src|
        invariant 0 <= k <= |src| && Shape(F())
        invariant FileWrite.Filewrite(old(F()), i, off, src) == FileWrite.Filewrite(F(), i, off', src[k..])
      {
        FilewriteStep(F(), i, off', src[k..]);
        var n1 := |src| - k;
        if n1 > MAXWRITE {
          n1 := MAXWRITE;
        }
        logged := {};
        var r: int;
        ok, r := Writei(i, off', src[k..][..n1]);
        if !ok {
          return false, off', false;
        }
        if r < 0 {
          return true, off', false;
        }
        off', k := off' + r, k + n1;
        assert src[k - n1..][n1..] == src[k..];
      }
      FilewriteDone(F(), i, off');
      assert src[k..] == [];
      return true, off', true;
    }
  }

  /** What is read once `got` is ahead of r. */
  ghost function Ahead(got: seq<Byte>, r: Option<(Fs, seq<Byte>)>): Option<(Fs, seq<Byte>)> {
    if r.None? then None else Some((r.value.0, got + r.value.1))
  }

  lemma AheadLaws(a: seq<Byte>, b: seq<Byte>, r: Option<(Fs, seq<Byte>)>)
    ensures Ahead([], r) == r && Ahead(a, Ahead(b, r)) == Ahead(a + b, r)
  {
    if r.Some? {
      assert [] + r.value.1 == r.value.1;
      assert a + (b + r.value.1) == a + b + r.value.1;
    }
  }

  lemma WriteStep(f: Fs, i: nat, off: nat, src: seq<Byte>)
    requires Shape(f) && i < f.sb.ninodes && src != []
    ensures var g := WriteChunk(f, i, off, src);
            var m := Chunk(off, |src|);
            WriteAll(f, i, off, src) == if g.None? then None else WriteAll(g.value, i, off + m, src[m..])
  {
  }

  lemma WriteDone(f: Fs, i: nat, off: nat)
    requires Shape(f) && i < f.sb.ninodes
    ensures WriteAll(f, i, off, []) == Some(f)
  {
  }

  lemma ReadStep(f: Fs, i: nat, off: nat, n: nat)
    requires Shape(f) && i < f.sb.ninodes && n > 0
    ensures var m := Chunk(off, n);
            var g := FileSystem.Bmap(f, i, off / BSIZE);
            ReadAll(f, i, off, n) ==
              if g.None? || Ref(g.value, i, SlotOf(off / BSIZE)) >= f.sb.size then None
              else
                var b := g.value.blk[Ref(g.value, i, SlotOf(off / BSIZE))];
                Ahead(b[off % BSIZE..off % BSIZE + m], ReadAll(g.value, i, off + m, n - m))
  {
  }

  lemma ReadDone(f: Fs, i: nat, off: nat)
    requires Shape(f) && i < f.sb.ninodes
    ensures ReadAll(f, i, off, 0) == Some((f, []))
  {
  }

  lemma ShapeLengths(f: Fs)
    requires Shape(f)
    ensures |f.blk| == f.sb.size && f.sb.DataStart() <= f.sb.size
  {
  }

  lemma BitAt(f: Fs, b: nat, bi: nat)
    requires Shape(f) && b % BPB == 0 && bi < BPB && b + bi < f.sb.size
    ensures (b + bi) % BPB == bi && f.sb.BBlock(b + bi) == f.sb.BBlock(b) < |f.blk|
    ensures Used(f, b + bi) == GetBit(f.blk[f.sb.BBlock(b)], bi)
  {
    BitmapInside(f.sb, b + bi);
  }

  lemma FreeStep(f: Fs, k: nat)
    requires Shape(f) && k <= f.sb.size
    ensures FirstFree(f, k) == if k == f.sb.size || !Used(f, k) then k else FirstFree(f, k + 1)
  {
  }

  lemma DirectStep(f: Fs, i: nat, k: nat)
    requires Shape(f) && i < f.sb.ninodes && k < NDIRECT
    ensures TruncDirect(f, i, k) ==
            if f.tab[i].addrs[k] == 0 then TruncDirect(f, i, k + 1)
            else
              var g := FileTrunc.Bfree(f, f.tab[i].addrs[k]);
              if g.None? then None else TruncDirect(Detach(g.value, i, k), i, k + 1)
  {
  }

  lemma DirectDone(f: Fs, i: nat)
    requires Shape(f) && i < f.sb.ninodes
    ensures TruncDirect(f, i, NDIRECT) == Some(f)
  {
  }

  lemma IndirectStep(f: Fs, a: Block, j: nat)
    requires Shape(f) && j < NINDIRECT
    ensures TruncIndirect(f, a, j) ==
            if GetWord(a, j) == 0 then TruncIndirect(f, a, j + 1)
            else
              var g := FileTrunc.Bfree(f, GetWord(a, j));
              if g.None? then None else TruncIndirect(g.value, a, j + 1)
  {
  }

  lemma IndirectDone(f: Fs, a: Block)
    requires Shape(f)
    ensures TruncIndirect(f, a, NINDIRECT) == Some(f)
  {
  }

  lemma FilewriteStep(f: Fs, i: nat, off: Word, src: seq<Byte>)
    requires Shape(f) && i < f.sb.ninodes && src != []
    ensures var n1 := Min(|src|, MAXWRITE);
            var w := FileBytes.Writei(Begin(f), i, off, src[..n1]);
            && (w.Some? && w.value.1 >= 0 ==> w.value.1 == n1 && off + n1 < 0x1_0000_0000)
            && FileWrite.Filewrite(f, i, off, src) ==
               if w.None? then None
               else if w.value.1 < 0 then Some((w.value.0, off, false))
               else FileWrite.Filewrite(w.value.0, i, off + n1, src[n1..])
  {
  }

  lemma FilewriteDone(f: Fs, i: nat, off: Word)
    requires Shape(f) && i < f.sb.ninodes
    ensures FileWrite.Filewrite(f, i, off, []) == Some((f, off, true))
  {
  }
}
