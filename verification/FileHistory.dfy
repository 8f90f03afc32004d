/** Whole histories of file operations: the file layer of fs.c, from any disk on which each
    block has one owner, behaves as a table of byte sequences. Boot shows what that says
    of an image of mkfs. */
module FileHistory {
  import opened Blocks
  import opened Options
  import opened FileSystem
  import opened FileBytes
  import opened FileMaps
  import opened FileRoom
  import opened FileTrunc

  /** Blocks have one owner and the bitmap is exact, and no file is too long. */
  ghost predicate Sound(f: Fs, owner: map<nat, Slot>) {
    Owned(f, owner) && SizesOk(f)
  }

  /** Every file has the blocks of its size and no others, and its inode on disk is the one
      in memory. */
  ghost predicate Exact(f: Fs)
    requires Shape(f)
  {
    forall j :: 0 <= j < f.sb.ninodes ==> Mapped(f, j) && Synced(f, j)
  }

  datatype Op =
    | Write(i: nat, off: Word, src: seq<Byte>)
    | Read(i: nat, off: Word, n: Word)
    | Trunc(i: nat)

  /** What a call returns: writei's number, readi's bytes if not -1, nothing for itrunc. */
  datatype Out = Wrote(r: int) | Got(bytes: Option<seq<Byte>>) | Cut

  /** The operation as the code does it; None is a panic. */
  function RunOp(f: Fs, op: Op): (r: Option<(Fs, Out)>)
    requires Shape(f) && op.i < f.sb.ninodes
    ensures r.Some? ==> Shape(r.value.0) && r.value.0.sb == f.sb
  {
    match op
    case Write(i, off, src) =>
      var w := Writei(f, i, off, src);
      if w.None? then None else Some((w.value.0, Wrote(w.value.1)))
    case Read(i, off, n) =>
      var r := Readi(f, i, off, n);
      if r.None? then None else Some((r.value.0, Got(r.value.1)))
    case Trunc(i) =>
      var t := Itrunc(f, i);
      if t.None? then None else Some((t.value, Cut))
  }

  /** The same on a table of byte sequences. */
  function SpecOp(c: seq<seq<Byte>>, op: Op): (r: (seq<seq<Byte>>, Out))
    requires op.i < |c|
    ensures |r.0| == |c|
  {
    match op
    case Write(i, off, src) =>
      if off > |c[i]| || off + |src| > MAXFILE * BSIZE then (c, Wrote(-1))
      else (c[i := Splice(c[i], off, src)], Wrote(|src|))
    case Read(i, off, n) =>
      if off > |c[i]| || off + n >= 0x1_0000_0000 then (c, Got(None))
      else (c, Got(Some(c[i][off..if off + n > |c[i]| then |c[i]| else off + n])))
    case Trunc(i) => (c[i := []], Cut)
  }

  function Contents(f: Fs): (c: seq<seq<Byte>>)
    requires Shape(f) && SizesOk(f)
    ensures |c| == f.sb.ninodes && forall j :: 0 <= j < |c| ==> c[j] == Bytes(f, j)
  {
    seq(f.sb.ninodes, j requires 0 <= j < f.sb.ninodes => Bytes(f, j))
  }

  lemma SoundShape(f: Fs, owner: map<nat, Slot>)
    requires Sound(f, owner)
    ensures Shape(f) && SizesOk(f) && Owned(f, owner)
  {
  }

  lemma WriteRefines(f: Fs, owner: map<nat, Slot>, i: nat, off: Word, src: seq<Byte>) returns (owner': map<nat, Slot>)
    requires Sound(f, owner) && i < f.sb.ninodes && Writei(f, i, off, src).Some?
    ensures var g := Writei(f, i, off, src).value.0;
            Sound(g, owner') && (Contents(g), Wrote(Writei(f, i, off, src).value.1)) == SpecOp(Contents(f), Write(i, off, src))
  {
    hide Owned, Writei, Splice;
    OwnedShape(f, owner);
    owner' := WriteiCorrect(f, owner, i, off, src);
    var g := Writei(f, i, off, src).value.0;
    OwnedShape(g, owner');
    var c := Contents(f);
    assert c[i] == Bytes(f, i) && |c[i]| == f.tab[i].size;
    if Writei(f, i, off, src).value.1 >= 0 {
      assert Rewritten(f, g, i, off, src);
      assert Contents(g) == c[i := Splice(Bytes(f, i), off, src)];
    } else {
      assert g == f;
    }
  }

  lemma WriteExact(f: Fs, owner: map<nat, Slot>, i: nat, off: Word, src: seq<Byte>)
    requires Sound(f, owner) && Exact(f) && i < f.sb.ninodes && Writei(f, i, off, src).Some?
    ensures Exact(Writei(f, i, off, src).value.0)
  {
    hide Owned, Writei, Mapped, Synced, PointersThere;
    OwnedShape(f, owner);
    var (g, r) := Writei(f, i, off, src).value;
    if off + |src| <= f.tab[i].size {
      MappedThere(f, i, off, |src|);
    }
    forall j | 0 <= j < f.sb.ninodes ensures Mapped(g, j) && Synced(g, j) {
      WriteiMapped(f, owner, i, off, src, j);
      WriteiSynced(f, owner, i, off, src, j);
    }
  }

  lemma ReadRefines(f: Fs, owner: map<nat, Slot>, i: nat, off: Word, n: Word) returns (owner': map<nat, Slot>)
    requires Sound(f, owner) && i < f.sb.ninodes && Readi(f, i, off, n).Some?
    ensures var r := Readi(f, i, off, n).value;
            Sound(r.0, owner') && (Contents(r.0), Got(r.1)) == SpecOp(Contents(f), Read(i, off, n))
  {
    hide Owned, Readi, There, Peek;
    OwnedShape(f, owner);
    owner' := ReadiCorrect(f, owner, i, off, n);
    var g := Readi(f, i, off, n).value.0;
    if ReadRefused(f, i, off, n) {
      owner' := owner;
    } else {
      forall j | 0 <= j < f.sb.ninodes ensures Bytes(g, j) == Bytes(f, j) {
        BmapSame(f, g, j);
      }
    }
    assert Contents(g) == Contents(f);
  }

  lemma ReadExact(f: Fs, owner: map<nat, Slot>, i: nat, off: Word, n: Word)
    requires Sound(f, owner) && Exact(f) && i < f.sb.ninodes
    ensures Readi(f, i, off, n).Some? && Readi(f, i, off, n).value.0 == f
  {
    hide Owned, Readi, There, Extends, SamePeeks, Mapped;
    OwnedShape(f, owner);
    var o := ReadiCorrect(f, owner, i, off, n);
    if !ReadRefused(f, i, off, n) {
      MappedThere(f, i, off, Clipped(f, i, off, n));
    }
  }

  lemma TruncRefines(f: Fs, owner: map<nat, Slot>, i: nat)
    requires Sound(f, owner) && i < f.sb.ninodes
    ensures Itrunc(f, i).Some?
    ensures var g := Itrunc(f, i).value;
            Sound(g, OthersOf(owner, i)) && Contents(g) == Contents(f)[i := []]
  {
    hide Owned, Itrunc, Synced, Ref, Used;
    OwnedShape(f, owner);
    ItruncCorrect(f, owner, i);
    var g := Itrunc(f, i).value;
    OwnedShape(g, OthersOf(owner, i));
    assert Bytes(g, i) == [];
    assert Contents(g) == Contents(f)[i := []];
  }

  lemma TruncExact(f: Fs, owner: map<nat, Slot>, i: nat)
    requires Sound(f, owner) && Exact(f) && i < f.sb.ninodes
    ensures Itrunc(f, i).Some? && Exact(Itrunc(f, i).value)
  {
    hide Owned, Itrunc, Synced, Ref, NeededBy, Used;
    OwnedShape(f, owner);
    ItruncCorrect(f, owner, i);
    var g := Itrunc(f, i).value;
    forall j | 0 <= j < f.sb.ninodes ensures Mapped(g, j) && Synced(g, j) {
      ItruncElsewhere(f, owner, i, j);
      if j == i {
        NothingNeeded();
      }
    }
  }

  lemma NothingNeeded()
    ensures forall l :: 0 <= l < SLOTS ==> !NeededBy(0, l)
  {
  }

  /** One operation, on disk and on the table. */
  lemma OpRefines(f: Fs, owner: map<nat, Slot>, op: Op) returns (owner': map<nat, Slot>)
    requires Sound(f, owner) && op.i < f.sb.ninodes && RunOp(f, op).Some?
    ensures Sound(RunOp(f, op).value.0, owner') && (Exact(f) ==> Exact(RunOp(f, op).value.0))
    ensures (Contents(RunOp(f, op).value.0), RunOp(f, op).value.1) == SpecOp(Contents(f), op)
  {
    hide Sound, Exact, Writei, Readi, Itrunc, Contents;
    SoundShape(f, owner);
    match op
    case Write(i, off, src) =>
      owner' := WriteRefines(f, owner, i, off, src);
      if Exact(f) {
        WriteExact(f, owner, i, off, src);
      }
    case Read(i, off, n) =>
      owner' := ReadRefines(f, owner, i, off, n);
      if Exact(f) {
        ReadExact(f, owner, i, off, n);
      }
    case Trunc(i) =>
      TruncRefines(f, owner, i);
      owner' := OthersOf(owner, i);
      if Exact(f) {
        TruncExact(f, owner, i);
      }
  }

  predicate Legal(n: nat, ops: seq<Op>) {
    forall k :: 0 <= k < |ops| ==> ops[k].i < n
  }

  /** A history on disk: the file system and what the calls returned; None if one panicked. */
  function Run(f: Fs, ops: seq<Op>): (r: Option<(Fs, seq<Out>)>)
    requires Shape(f) && Legal(f.sb.ninodes, ops)
    ensures r.Some? ==> Shape(r.value.0) && r.value.0.sb == f.sb
  {
    if ops == [] then Some((f, []))
    else
      var m := |ops| - 1;
      var r := Run(f, ops[..m]);
      if r.None? then None
      else
        var s := RunOp(r.value.0, ops[m]);
        if s.None? then None else Some((s.value.0, r.value.1 + [s.value.1]))
  }

  function SpecRun(c: seq<seq<Byte>>, ops: seq<Op>): (r: (seq<seq<Byte>>, seq<Out>))
    requires Legal(|c|, ops)
    ensures |r.0| == |c|
  {
    if ops == [] then (c, [])
    else
      var m := |ops| - 1;
      var r := SpecRun(c, ops[..m]);
      var s := SpecOp(r.0, ops[m]);
      (s.0, r.1 + [s.1])
  }

  /** Every history of writei, readi and itrunc that does not run out of blocks leaves
      each block with one owner, holds what the table of byte sequences holds, and
      returned what the table gives; and the inodes stay exact if they were. */
  lemma {:induction false} FilesRefine(f: Fs, owner: map<nat, Slot>, ops: seq<Op>) returns (owner': map<nat, Slot>)
    requires Sound(f, owner) && Legal(f.sb.ninodes, ops)
    ensures Run(f, ops).Some? ==>
              var g := Run(f, ops).value.0;
              && Sound(g, owner') && (Contents(g), Run(f, ops).value.1) == SpecRun(Contents(f), ops)
              && (Exact(f) ==> Exact(g))
    decreases |ops|
  {
    hide Sound, Exact, RunOp, SpecOp, Contents;
    SoundShape(f, owner);
    owner' := owner;
    if ops != [] {
      var m := |ops| - 1;
      owner' := FilesRefine(f, owner, ops[..m]);
      if Run(f, ops).Some? {
        var g := Run(f, ops[..m]).value.0;
        SoundShape(g, owner');
        owner' := OpRefines(g, owner', ops[m]);
      }
    }
  }

  // ----- When a history does not run out of blocks -----

  lemma ExactCount(f: Fs, owner: map<nat, Slot>)
    requires Sound(f, owner) && Exact(f)
    ensures |FreeBlocks(f)| == Capacity(f.sb) - Total(Contents(f))
  {
    hide Owned, Mapped, Synced, FreeBelow, Total;
    OwnedShape(f, owner);
    FreeCount(f, owner, Contents(f));
  }

  /** An operation panics exactly when the files it would leave do not fit the disk. */
  lemma OpSucceeds(f: Fs, owner: map<nat, Slot>, op: Op)
    requires Sound(f, owner) && Exact(f) && op.i < f.sb.ninodes
    ensures RunOp(f, op).Some? <==> Total(SpecOp(Contents(f), op).0) <= Capacity(f.sb)
  {
    hide Exact, Writei, Readi, Itrunc, FreeBelow, Total, NBlocks, Owned, Splice;
    SoundShape(f, owner);
    ExactCount(f, owner);
    match op
    case Write(i, off, src) => WriteFits(f, owner, i, off, src);
    case Read(i, off, n) => ReadExact(f, owner, i, off, n);
    case Trunc(i) =>
      TruncExact(f, owner, i);
      TotalSet(Contents(f), i, []);
      NBlocksGrows(0, |Contents(f)[i]|);
  }

  lemma WriteFits(f: Fs, owner: map<nat, Slot>, i: nat, off: Word, src: seq<Byte>)
    requires Sound(f, owner) && Exact(f) && i < f.sb.ninodes && |FreeBlocks(f)| == Capacity(f.sb) - Total(Contents(f))
    ensures Writei(f, i, off, src).Some? <==> Total(SpecOp(Contents(f), Write(i, off, src)).0) <= Capacity(f.sb)
  {
    hide Owned, Writei, FreeBelow, Total, NBlocks, Missing, Mapped, Synced;
    OwnedShape(f, owner);
    var c := Contents(f);
    assert c[i] == Bytes(f, i) && |c[i]| == f.tab[i].size;
    WriteiSucceeds(f, owner, i, off, src);
    if off <= f.tab[i].size && off + |src| <= MAXFILE * BSIZE {
      MissingMapped(f, i, off, |src|);
      TotalSet(c, i, Splice(c[i], off, src));
    }
  }

  /** The files after each of the operations fit the disk. */
  ghost predicate AllFit(sb: Super, c: seq<seq<Byte>>, ops: seq<Op>)
    requires Legal(|c|, ops)
  {
    forall k :: 0 <= k <= |ops| ==> FitAfter(sb, c, ops, k)
  }

  predicate FitAfter(sb: Super, c: seq<seq<Byte>>, ops: seq<Op>, k: nat)
    requires Legal(|c|, ops) && k <= |ops|
  {
    Total(SpecRun(c, ops[..k]).0) <= Capacity(sb)
  }

  lemma FitAfterPrefix(sb: Super, c: seq<seq<Byte>>, ops: seq<Op>, k: nat)
    requires Legal(|c|, ops) && ops != [] && k <= |ops|
    ensures var m := |ops| - 1; if k <= m then FitAfter(sb, c, ops, k) == FitAfter(sb, c, ops[..m], k)
            else FitAfter(sb, c, ops, k) == (Total(SpecRun(c, ops).0) <= Capacity(sb))
  {
    hide Total, SpecRun;
    if k < |ops| {
      assert ops[..|ops| - 1][..k] == ops[..k];
    } else {
      assert ops[..k] == ops;
    }
  }

  lemma AllFitNext(sb: Super, c: seq<seq<Byte>>, ops: seq<Op>)
    requires Legal(|c|, ops) && ops != []
    ensures var m := |ops| - 1;
            AllFit(sb, c, ops) <==> AllFit(sb, c, ops[..m]) && Total(SpecRun(c, ops).0) <= Capacity(sb)
  {
    hide Total, SpecRun, FitAfter;
    var m := |ops| - 1;
    forall k: nat | k <= |ops|
      ensures if k <= m then FitAfter(sb, c, ops, k) == FitAfter(sb, c, ops[..m], k)
              else FitAfter(sb, c, ops, k) == (Total(SpecRun(c, ops).0) <= Capacity(sb))
    {
      FitAfterPrefix(sb, c, ops, k);
    }
    assert AllFit(sb, c, ops) ==> FitAfter(sb, c, ops, |ops|);
  }

  /** From inodes with just their blocks a history runs without a panic exactly if the
      files of the table fit the disk after every operation. */
  lemma {:induction false} HistorySucceeds(f: Fs, owner: map<nat, Slot>, ops: seq<Op>)
    requires Sound(f, owner) && Exact(f) && Legal(f.sb.ninodes, ops)
    ensures Run(f, ops).Some? <==> AllFit(f.sb, Contents(f), ops)
    decreases |ops|
  {
    hide Sound, Exact, RunOp, SpecOp, Contents, AllFit, Total;
    SoundShape(f, owner);
    if ops == [] {
      FitsNow(f, owner);
    } else {
      var m := |ops| - 1;
      HistorySucceeds(f, owner, ops[..m]);
      AllFitNext(f.sb, Contents(f), ops);
      var o := FilesRefine(f, owner, ops[..m]);
      if Run(f, ops[..m]).Some? {
        var g := Run(f, ops[..m]).value.0;
        SoundShape(g, o);
        OpSucceeds(g, o, ops[m]);
      }
    }
  }

  lemma FitsNow(f: Fs, owner: map<nat, Slot>)
    requires Sound(f, owner) && Exact(f)
    ensures AllFit(f.sb, Contents(f), [])
  {
    hide Exact, Owned, Total, Contents, FreeBelow;
    OwnedShape(f, owner);
    ExactCount(f, owner);
  }
}
