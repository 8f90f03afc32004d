/** The block and file layer of fs.c as functions of what the file system sees: the
    contents of every block, as read through the log and the cache, and the inodes, each
    the in-memory copy where there is one and else the one on disk. `logged` collects the
    sectors log_write was called for. None is a panic. */
module FileSystem {
  import opened Blocks
  import opened Options

  const NDIRECT: nat := 12
  const NINDIRECT: nat := 128
  const MAXFILE: nat := 140
  const IPB: nat := 8

  /** The slots of an inode that can hold a block number: 12 direct ones, the pointer to
      the indirect block, and the 128 words of the indirect block. */
  const INDIRECT: nat := 12
  const SLOTS: nat := 141

  datatype Super = Super(size: nat, ninodes: nat, nlog: nat) {
    function BBlock(b: nat): nat {
      b / BPB + ninodes / IPB + 3
    }

    function IBlock(inum: nat): nat {
      inum / IPB + 2
    }

    /** The first block after the bitmap, where mkfs starts to allocate. */
    function DataStart(): nat {
      ninodes / IPB + 3 + size / BPB + 1
    }

    function LogStart(): nat {
      if nlog <= size then size - nlog else 0
    }
  }

  /** type, major, minor and nlink are the first two words of a disk inode. */
  datatype Inode = Inode(kind: Word, links: Word, size: Word, addrs: seq<Word>)

  datatype Fs = Fs(sb: Super, blk: seq<Block>, tab: seq<Inode>, logged: set<nat>)

  predicate Shape(f: Fs) {
    && |f.blk| == f.sb.size <= 0x1_0000_0000 && |f.tab| == f.sb.ninodes && f.sb.DataStart() <= f.sb.size
    && forall i :: 0 <= i < |f.tab| ==> |f.tab[i].addrs| == NDIRECT + 1
  }

  predicate Used(f: Fs, b: nat)
    requires Shape(f) && b < f.sb.size
  {
    BitmapInside(f.sb, b);
    GetBit(f.blk[f.sb.BBlock(b)], b % BPB)
  }

  lemma BitmapInside(sb: Super, b: nat)
    requires b < sb.size
    ensures sb.BBlock(b) < sb.DataStart() && sb.IBlock(0) < sb.BBlock(b)
  {
  }

  lemma InodeInside(sb: Super, i: nat)
    requires i < sb.ninodes
    ensures sb.IBlock(i) < sb.BBlock(0) < sb.DataStart()
  {
  }

  /** The block number in slot k of inode i; zero if there is none. */
  function Ref(f: Fs, i: nat, k: nat): nat
    requires Shape(f) && i < f.sb.ninodes && k < SLOTS
  {
    if k <= INDIRECT then f.tab[i].addrs[k]
    else if f.tab[i].addrs[INDIRECT] == 0 || f.tab[i].addrs[INDIRECT] >= f.sb.size then 0
    else GetWord(f.blk[f.tab[i].addrs[INDIRECT]], k - INDIRECT - 1)
  }

  /** The slot of file block bn. */
  function SlotOf(bn: nat): nat {
    if bn < NDIRECT then bn else bn + 1
  }

  // ----- Ownership -----

  datatype Slot = Slot(inum: nat, k: nat)

  /** Every block number in a slot is the number of a data block that has this slot as its
      one owner, and the bitmap marks exactly the metadata blocks and the owned ones. */
  ghost predicate Owned(f: Fs, owner: map<nat, Slot>) {
    Shape(f) && SlotsOwned(f, owner) && OwnersHold(f, owner) && BitmapExact(f, owner)
  }

  ghost predicate SlotsOwned(f: Fs, owner: map<nat, Slot>)
    requires Shape(f)
  {
    forall i, k :: 0 <= i < f.sb.ninodes && 0 <= k < SLOTS && Ref(f, i, k) != 0 ==>
      Ref(f, i, k) in owner && owner[Ref(f, i, k)] == Slot(i, k)
  }

  ghost predicate OwnersHold(f: Fs, owner: map<nat, Slot>)
    requires Shape(f)
  {
    forall b :: b in owner ==> OwnedBlock(f, owner[b], b)
  }

  ghost predicate BitmapExact(f: Fs, owner: map<nat, Slot>)
    requires Shape(f)
  {
    forall b :: 0 <= b < f.sb.size ==> (Used(f, b) <==> b < f.sb.DataStart() || b in owner)
  }

  predicate OwnedBlock(f: Fs, s: Slot, b: nat)
    requires Shape(f)
  {
    && f.sb.DataStart() <= b < f.sb.size && s.inum < f.sb.ninodes && s.k < SLOTS
    && Ref(f, s.inum, s.k) == b
  }

  // ----- balloc -----

  function FirstFree(f: Fs, k: nat): (b: nat)
    requires Shape(f) && k <= f.sb.size
    ensures k <= b <= f.sb.size && (b < f.sb.size ==> !Used(f, b))
    ensures forall j :: k <= j < b ==> Used(f, j)
    decreases f.sb.size - k
  {
    if k == f.sb.size || !Used(f, k) then k else FirstFree(f, k + 1)
  }

  function SetBlock(f: Fs, b: nat, x: Block): Fs
    requires b < |f.blk|
  {
    f.(blk := f.blk[b := x], logged := f.logged + {b})
  }

  function Mark(f: Fs, b: nat): (g: Fs)
    requires Shape(f) && b < f.sb.size
    ensures |g.blk| == |f.blk|
  {
    BitmapInside(f.sb, b);
    var bb := f.sb.BBlock(b);
    SetBlock(f, bb, SetBit(f.blk[bb], b % BPB))
  }

  /** balloc's work on block b: mark it used and zero it. */
  function Allocate(f: Fs, b: nat): (g: Fs)
    requires Shape(f) && b < f.sb.size
    ensures Shape(g) && g.sb == f.sb && g.tab == f.tab
  {
    SetBlock(Mark(f, b), b, Zero())
  }

  /** bfree's work on block b. */
  function Unmark(f: Fs, b: nat): (g: Fs)
    requires Shape(f) && b < f.sb.size
    ensures Shape(g) && g.sb == f.sb && g.tab == f.tab
  {
    BitmapInside(f.sb, b);
    var bb := f.sb.BBlock(b);
    SetBlock(f, bb, ClearBit(f.blk[bb], b % BPB))
  }

  lemma SameBit(a: nat, b: nat)
    requires a / BPB == b / BPB && a % BPB == b % BPB
    ensures a == b
  {
  }

  lemma AllocateUsed(f: Fs, b: nat, c: nat)
    requires Shape(f) && f.sb.DataStart() <= b < f.sb.size && c < f.sb.size
    ensures Shape(Allocate(f, b)) && (Used(Allocate(f, b), c) <==> c == b || Used(f, c))
  {
    BitmapInside(f.sb, b);
    BitmapInside(f.sb, c);
    GetSetBit(f.blk[f.sb.BBlock(b)], b % BPB, c % BPB);
    if b / BPB == c / BPB && b % BPB == c % BPB {
      SameBit(b, c);
    }
  }

  lemma UnmarkUsed(f: Fs, b: nat, c: nat)
    requires Shape(f) && b < f.sb.size && c < f.sb.size
    ensures Shape(Unmark(f, b)) && (Used(Unmark(f, b), c) <==> c != b && Used(f, c))
  {
    BitmapInside(f.sb, b);
    BitmapInside(f.sb, c);
    GetClearBit(f.blk[f.sb.BBlock(b)], b % BPB, c % BPB);
    if b / BPB == c / BPB && b % BPB == c % BPB {
      SameBit(b, c);
    }
  }

  // ----- bmap -----

  /** Store block number b into slot k of inode i. */
  function Attach(f: Fs, i: nat, k: nat, b: Word): (g: Fs)
    requires Shape(f) && i < f.sb.ninodes && k < SLOTS && (k > INDIRECT ==> f.tab[i].addrs[INDIRECT] < f.sb.size)
    ensures Shape(g) && g.sb == f.sb
  {
    if k <= INDIRECT then f.(tab := f.tab[i := f.tab[i].(addrs := f.tab[i].addrs[k := b])])
    else
      var ind := f.tab[i].addrs[INDIRECT];
      SetBlock(f, ind, SetWord(f.blk[ind], k - INDIRECT - 1, b))
  }

  /** Make sure slot k has a block, as bmap does for one pointer. */
  function Fill(f: Fs, i: nat, k: nat): (r: Option<Fs>)
    requires Shape(f) && i < f.sb.ninodes && k < SLOTS && (k > INDIRECT ==> f.tab[i].addrs[INDIRECT] < f.sb.size)
    ensures r.Some? ==> Shape(r.value) && r.value.sb == f.sb
  {
    if Ref(f, i, k) != 0 then Some(f)
    else if FirstFree(f, 0) == f.sb.size then None
    else Some(Attach(Allocate(f, FirstFree(f, 0)), i, k, FirstFree(f, 0)))
  }

  lemma FreeIsData(f: Fs, owner: map<nat, Slot>)
    requires Owned(f, owner) && FirstFree(f, 0) < f.sb.size
    ensures f.sb.DataStart() <= FirstFree(f, 0) && FirstFree(f, 0) !in owner
  {
    var b := FirstFree(f, 0);
    assert !Used(f, b);
  }

  /** The indirect block of an inode is owned by its pointer slot. */
  lemma IndirectOwned(f: Fs, owner: map<nat, Slot>, j: nat)
    requires Owned(f, owner) && j < f.sb.ninodes && f.tab[j].addrs[INDIRECT] != 0
    ensures var ind := f.tab[j].addrs[INDIRECT];
            ind in owner && owner[ind] == Slot(j, INDIRECT) && f.sb.DataStart() <= ind < f.sb.size
  {
    assert Ref(f, j, INDIRECT) != 0;
  }

  lemma OwnedShape(f: Fs, owner: map<nat, Slot>)
    requires Owned(f, owner)
    ensures Shape(f)
  {
  }

  lemma AllocateRef(f: Fs, owner: map<nat, Slot>, b: nat, j: nat, l: nat)
    requires Owned(f, owner) && f.sb.DataStart() <= b < f.sb.size && b !in owner && j < f.sb.ninodes && l < SLOTS
    ensures Ref(Allocate(f, b), j, l) == Ref(f, j, l)
  {
    BitmapInside(f.sb, b);
    if f.tab[j].addrs[INDIRECT] != 0 {
      IndirectOwned(f, owner, j);
    }
  }

  lemma AttachRef(f: Fs, owner: map<nat, Slot>, b: nat, i: nat, k: nat, j: nat, l: nat)
    requires Owned(f, owner) && f.sb.DataStart() <= b < f.sb.size && b !in owner && i < f.sb.ninodes && k < SLOTS
    requires Ref(f, i, k) == 0 && (k > INDIRECT ==> f.tab[i].addrs[INDIRECT] != 0) && j < f.sb.ninodes && l < SLOTS
    ensures (k > INDIRECT ==> f.tab[i].addrs[INDIRECT] < f.sb.size)
    ensures Ref(Attach(Allocate(f, b), i, k, b), j, l) == if j == i && l == k then b else Ref(f, j, l)
  {
    hide Owned, Used, Mark, GetWord, SetWord;
    OwnedShape(f, owner);
    AllocateRef(f, owner, b, j, l);
    var g := Allocate(f, b);
    if k > INDIRECT {
      IndirectOwned(f, owner, i);
      var ind := f.tab[i].addrs[INDIRECT];
      if l > INDIRECT {
        GetSetWord(g.blk[ind], k - INDIRECT - 1, b, l - INDIRECT - 1);
        if j != i && f.tab[j].addrs[INDIRECT] != 0 {
          IndirectOwned(f, owner, j);
        }
      }
    } else if k == INDIRECT && j == i && l > INDIRECT {
      ZeroWord(l - INDIRECT - 1);
    }
  }

  lemma FillSlots(f: Fs, owner: map<nat, Slot>, i: nat, k: nat)
    requires Owned(f, owner) && i < f.sb.ninodes && k < SLOTS && FirstFree(f, 0) < f.sb.size
    requires Ref(f, i, k) == 0 && (k > INDIRECT ==> f.tab[i].addrs[INDIRECT] != 0)
    ensures (k > INDIRECT ==> f.tab[i].addrs[INDIRECT] < f.sb.size)
    ensures var b := FirstFree(f, 0); SlotsOwned(Attach(Allocate(f, b), i, k, b), owner[b := Slot(i, k)])
  {
    hide Ref, Used, FirstFree, Allocate, Attach, OwnersHold, BitmapExact;
    var b := FirstFree(f, 0);
    FreeIsData(f, owner);
    AttachRef(f, owner, b, i, k, i, k);
    var g, o := Attach(Allocate(f, b), i, k, b), owner[b := Slot(i, k)];
    forall j, l | 0 <= j < f.sb.ninodes && 0 <= l < SLOTS && Ref(g, j, l) != 0
      ensures Ref(g, j, l) in o && o[Ref(g, j, l)] == Slot(j, l)
    {
      AttachRef(f, owner, b, i, k, j, l);
    }
  }

  lemma FillOwners(f: Fs, owner: map<nat, Slot>, i: nat, k: nat)
    requires Owned(f, owner) && i < f.sb.ninodes && k < SLOTS && FirstFree(f, 0) < f.sb.size
    requires Ref(f, i, k) == 0 && (k > INDIRECT ==> f.tab[i].addrs[INDIRECT] != 0)
    ensures (k > INDIRECT ==> f.tab[i].addrs[INDIRECT] < f.sb.size)
    ensures var b := FirstFree(f, 0); OwnersHold(Attach(Allocate(f, b), i, k, b), owner[b := Slot(i, k)])
  {
    hide Ref, Used, FirstFree, Allocate, Attach, SlotsOwned, BitmapExact;
    var b := FirstFree(f, 0);
    FreeIsData(f, owner);
    AttachRef(f, owner, b, i, k, i, k);
    var g, o := Attach(Allocate(f, b), i, k, b), owner[b := Slot(i, k)];
    forall c | c in o ensures OwnedBlock(g, o[c], c) {
      if c != b {
        assert OwnedBlock(f, owner[c], c);
      }
      AttachRef(f, owner, b, i, k, o[c].inum, o[c].k);
    }
  }

  lemma FillBitmap(f: Fs, owner: map<nat, Slot>, i: nat, k: nat)
    requires Owned(f, owner) && i < f.sb.ninodes && k < SLOTS && FirstFree(f, 0) < f.sb.size
    requires Ref(f, i, k) == 0 && (k > INDIRECT ==> f.tab[i].addrs[INDIRECT] != 0)
    ensures (k > INDIRECT ==> f.tab[i].addrs[INDIRECT] < f.sb.size)
    ensures var b := FirstFree(f, 0); BitmapExact(Attach(Allocate(f, b), i, k, b), owner[b := Slot(i, k)])
  {
    hide Ref, Used, FirstFree, Allocate, Attach, SlotsOwned, OwnersHold;
    var b := FirstFree(f, 0);
    FreeIsData(f, owner);
    if k > INDIRECT {
      IndirectOwned(f, owner, i);
    }
    var g, o := Attach(Allocate(f, b), i, k, b), owner[b := Slot(i, k)];
    forall c | 0 <= c < f.sb.size ensures Used(g, c) <==> c < f.sb.DataStart() || c in o {
      AttachUsed(f, owner, b, i, k, c);
    }
  }

  /** Giving a slot a fresh block keeps every block owned by exactly one slot. */
  lemma FillOwned(f: Fs, owner: map<nat, Slot>, i: nat, k: nat)
    requires Owned(f, owner) && i < f.sb.ninodes && k < SLOTS && FirstFree(f, 0) < f.sb.size
    requires Ref(f, i, k) == 0 && (k > INDIRECT ==> f.tab[i].addrs[INDIRECT] != 0)
    ensures (k > INDIRECT ==> f.tab[i].addrs[INDIRECT] < f.sb.size)
    ensures var b := FirstFree(f, 0); Owned(Attach(Allocate(f, b), i, k, b), owner[b := Slot(i, k)])
  {
    hide Ref, Used, FirstFree, Allocate, Attach, SlotsOwned, OwnersHold, BitmapExact;
    FillSlots(f, owner, i, k);
    FillOwners(f, owner, i, k);
    FillBitmap(f, owner, i, k);
  }

  lemma AttachUsed(f: Fs, owner: map<nat, Slot>, b: nat, i: nat, k: nat, c: nat)
    requires Owned(f, owner) && f.sb.DataStart() <= b < f.sb.size && b !in owner && i < f.sb.ninodes && k < SLOTS
    requires (k > INDIRECT ==> f.tab[i].addrs[INDIRECT] != 0) && c < f.sb.size
    ensures (k > INDIRECT ==> f.tab[i].addrs[INDIRECT] < f.sb.size)
    ensures Shape(Attach(Allocate(f, b), i, k, b))
    ensures Used(Attach(Allocate(f, b), i, k, b), c) <==> c == b || Used(f, c)
  {
    AllocateUsed(f, b, c);
    BitmapInside(f.sb, c);
    if k > INDIRECT {
      IndirectOwned(f, owner, i);
    }
  }

  /** bmap: the blocks file block bn of inode i needs. */
  function Bmap(f: Fs, i: nat, bn: nat): (r: Option<Fs>)
    requires Shape(f) && i < f.sb.ninodes
    ensures r.Some? ==> Shape(r.value) && r.value.sb == f.sb && bn < MAXFILE
  {
    if bn < NDIRECT then Fill(f, i, bn)
    else if bn >= MAXFILE then None
    else
      var g := Fill(f, i, INDIRECT);
      if g.None? || g.value.tab[i].addrs[INDIRECT] >= f.sb.size then None
      else Fill(g.value, i, bn + 1)
  }

  // ----- What a file holds -----

  /** The byte at offset o, zero where no block is mapped. */
  function Peek(f: Fs, i: nat, o: nat): Byte
    requires Shape(f) && i < f.sb.ninodes && o < MAXFILE * BSIZE
  {
    var r := Ref(f, i, SlotOf(o / BSIZE));
    if r == 0 || r >= f.sb.size then 0 else f.blk[r][o % BSIZE]
  }

  lemma FillPeek(f: Fs, owner: map<nat, Slot>, i: nat, k: nat, j: nat, o: nat)
    requires Owned(f, owner) && i < f.sb.ninodes && k < SLOTS && FirstFree(f, 0) < f.sb.size
    requires Ref(f, i, k) == 0 && (k > INDIRECT ==> f.tab[i].addrs[INDIRECT] != 0)
    requires j < f.sb.ninodes && o < MAXFILE * BSIZE
    ensures (k > INDIRECT ==> f.tab[i].addrs[INDIRECT] < f.sb.size)
    ensures var b := FirstFree(f, 0); Peek(Attach(Allocate(f, b), i, k, b), j, o) == Peek(f, j, o)
  {
    hide Ref, Used, FirstFree;
    var b := FirstFree(f, 0);
    FreeIsData(f, owner);
    var l := SlotOf(o / BSIZE);
    AttachRef(f, owner, b, i, k, j, l);
    BitmapInside(f.sb, b);
    var r := Ref(f, j, l);
    if k > INDIRECT {
      IndirectOwned(f, owner, i);
    }
    if r != 0 {
      assert owner[r] == Slot(j, l) && OwnedBlock(f, owner[r], r);
    }
  }

  /** What bmap, and writing data to mapped blocks, leave alone: the inodes on disk, the
      inodes but for the block numbers of i, and which slot has which block. */
  ghost predicate Extends(f: Fs, owner: map<nat, Slot>, g: Fs, owner': map<nat, Slot>, i: nat) {
    && Owned(f, owner) && Owned(g, owner') && g.sb == f.sb && i < f.sb.ninodes
    && (forall b :: b in owner ==> b in owner' && owner'[b] == owner[b])
    && (forall j :: 0 <= j < f.sb.ninodes && j != i ==> g.tab[j] == f.tab[j])
    && g.tab[i] == f.tab[i].(addrs := g.tab[i].addrs)
    && (forall s :: f.sb.IBlock(0) <= s < f.sb.BBlock(0) ==> g.blk[s] == f.blk[s])
  }

  ghost predicate SamePeeks(f: Fs, g: Fs)
    requires Shape(f) && Shape(g) && f.sb == g.sb
  {
    forall j, o :: 0 <= j < f.sb.ninodes && 0 <= o < MAXFILE * BSIZE ==> Peek(g, j, o) == Peek(f, j, o)
  }

  lemma ExtendsTrans(f: Fs, owner: map<nat, Slot>, g: Fs, owner': map<nat, Slot>, h: Fs, owner'': map<nat, Slot>, i: nat)
    requires Extends(f, owner, g, owner', i) && Extends(g, owner', h, owner'', i)
    ensures Extends(f, owner, h, owner'', i)
  {
    hide Owned;
    assert Owned(f, owner) && Owned(g, owner') && Owned(h, owner'');
  }

  /** The same slot keeps the same block. */
  lemma ExtendsRef(f: Fs, owner: map<nat, Slot>, g: Fs, owner': map<nat, Slot>, i: nat, j: nat, l: nat)
    requires Extends(f, owner, g, owner', i) && j < f.sb.ninodes && l < SLOTS && Ref(f, j, l) != 0
    ensures Ref(g, j, l) == Ref(f, j, l)
  {
    hide Ref, Used;
    var r := Ref(f, j, l);
    assert r in owner && owner[r] == Slot(j, l);
    assert OwnedBlock(g, owner'[r], r);
  }

  lemma FillExtends(f: Fs, owner: map<nat, Slot>, i: nat, k: nat) returns (owner': map<nat, Slot>)
    requires Owned(f, owner) && i < f.sb.ninodes && k < SLOTS && (k > INDIRECT ==> f.tab[i].addrs[INDIRECT] != 0)
    ensures (k > INDIRECT ==> f.tab[i].addrs[INDIRECT] < f.sb.size)
    ensures Fill(f, i, k).Some? ==>
              && Extends(f, owner, Fill(f, i, k).value, owner', i) && SamePeeks(f, Fill(f, i, k).value)
              && Ref(Fill(f, i, k).value, i, k) != 0
  {
    hide Used, FirstFree, Peek, Allocate, Attach, Ref, Owned;
    OwnedShape(f, owner);
    owner' := owner;
    if k > INDIRECT {
      IndirectOwned(f, owner, i);
    }
    if Ref(f, i, k) == 0 && FirstFree(f, 0) < f.sb.size {
      var b := FirstFree(f, 0);
      FreeIsData(f, owner);
      owner' := owner[b := Slot(i, k)];
      FillOwned(f, owner, i, k);
      AttachRef(f, owner, b, i, k, i, k);
      var g := Attach(Allocate(f, b), i, k, b);
      forall j, o | 0 <= j < f.sb.ninodes && 0 <= o < MAXFILE * BSIZE ensures Peek(g, j, o) == Peek(f, j, o) {
        FillPeek(f, owner, i, k, j, o);
      }
      FillFrame(f, owner, i, k);
    }
  }

  lemma FillFrame(f: Fs, owner: map<nat, Slot>, i: nat, k: nat)
    requires Owned(f, owner) && i < f.sb.ninodes && k < SLOTS && (k > INDIRECT ==> f.tab[i].addrs[INDIRECT] != 0)
    requires FirstFree(f, 0) < f.sb.size
    ensures (k > INDIRECT ==> f.tab[i].addrs[INDIRECT] < f.sb.size)
    ensures var b := FirstFree(f, 0);
            var g := Attach(Allocate(f, b), i, k, b);
            && (forall j :: 0 <= j < f.sb.ninodes && j != i ==> g.tab[j] == f.tab[j])
            && g.tab[i] == f.tab[i].(addrs := g.tab[i].addrs)
            && (forall s :: f.sb.IBlock(0) <= s < f.sb.BBlock(0) ==> g.blk[s] == f.blk[s])
  {
    hide Owned, Used, FirstFree, SetWord, SetBit;
    OwnedShape(f, owner);
    FreeIsData(f, owner);
    BitmapInside(f.sb, FirstFree(f, 0));
    if k > INDIRECT {
      IndirectOwned(f, owner, i);
    }
  }

  /** bmap maps the block, keeps the ownership, and changes no byte of any file. */
  lemma BmapExtends(f: Fs, owner: map<nat, Slot>, i: nat, bn: nat) returns (owner': map<nat, Slot>)
    requires Owned(f, owner) && i < f.sb.ninodes
    ensures Bmap(f, i, bn).Some? ==>
              var g := Bmap(f, i, bn).value;
              Extends(f, owner, g, owner', i) && SamePeeks(f, g) && Ref(g, i, SlotOf(bn)) != 0
  {
    hide Fill, Ref, Used;
    owner' := owner;
    if bn < NDIRECT {
      owner' := FillExtends(f, owner, i, bn);
    } else if bn < MAXFILE && Fill(f, i, INDIRECT).Some? {
      var o1 := FillExtends(f, owner, i, INDIRECT);
      var g := Fill(f, i, INDIRECT).value;
      PointerRef(g, i);
      owner' := FillExtends(g, o1, i, bn + 1);
      if Fill(g, i, bn + 1).Some? {
        ExtendsTrans(f, owner, g, o1, Fill(g, i, bn + 1).value, owner', i);
      }
    }
  }

  lemma PointerRef(f: Fs, i: nat)
    requires Shape(f) && i < f.sb.ninodes
    ensures Ref(f, i, INDIRECT) == f.tab[i].addrs[INDIRECT]
  {
  }

  // ----- iupdate -----

  function PutWords(b: Block, at: nat, ws: seq<Word>): Block
    requires at + |ws| <= WORDS
  {
    if ws == [] then b else SetWord(PutWords(b, at, ws[..|ws| - 1]), at + |ws| - 1, ws[|ws| - 1])
  }

  lemma {:induction false} GetPutWords(b: Block, at: nat, ws: seq<Word>, j: nat)
    requires at + |ws| <= WORDS && j < WORDS
    ensures GetWord(PutWords(b, at, ws), j) == if at <= j < at + |ws| then ws[j - at] else GetWord(b, j)
  {
    if ws != [] {
      var m := |ws| - 1;
      GetPutWords(b, at, ws[..m], j);
      GetSetWord(PutWords(b, at, ws[..m]), at + m, ws[m], j);
    }
  }

  function GetWords(b: Block, at: nat, n: nat): (ws: seq<Word>)
    requires at + n <= WORDS
    ensures |ws| == n && forall k :: 0 <= k < n ==> ws[k] == GetWord(b, at + k)
  {
    if n == 0 then [] else GetWords(b, at, n - 1) + [GetWord(b, at + n - 1)]
  }

  /** The 16 words of a disk inode. */
  function InodeWords(x: Inode): (ws: seq<Word>)
    requires |x.addrs| == NDIRECT + 1
    ensures |ws| == 16
  {
    [x.kind, x.links, x.size] + x.addrs
  }

  /** The inode on disk. */
  function Dinode(f: Fs, i: nat): (x: Inode)
    requires Shape(f) && i < f.sb.ninodes
    ensures |x.addrs| == NDIRECT + 1
  {
    InodeInside(f.sb, i);
    var b := f.blk[f.sb.IBlock(i)];
    var ws := GetWords(b, 16 * (i % IPB), 16);
    Inode(ws[0], ws[1], ws[2], ws[3..])
  }

  function Iupdate(f: Fs, i: nat): (g: Fs)
    requires Shape(f) && i < f.sb.ninodes
    ensures Shape(g) && g.sb == f.sb && g.tab == f.tab
  {
    InodeInside(f.sb, i);
    SetBlock(f, f.sb.IBlock(i), PutWords(f.blk[f.sb.IBlock(i)], 16 * (i % IPB), InodeWords(f.tab[i])))
  }

  lemma SameWords(y: Block, at: nat, n: nat, ws: seq<Word>)
    requires at + n <= WORDS && |ws| == n && forall k :: 0 <= k < n ==> GetWord(y, at + k) == ws[k]
    ensures GetWords(y, at, n) == ws
  {
  }

  /** iupdate makes the inode on disk the one in memory, and touches no other. */
  lemma IupdateSync(f: Fs, i: nat, j: nat)
    requires Shape(f) && i < f.sb.ninodes && j < f.sb.ninodes
    ensures Dinode(Iupdate(f, i), j) == if j == i then f.tab[i] else Dinode(f, j)
  {
    hide PutWords, GetWord, GetWords;
    InodeInside(f.sb, i);
    InodeInside(f.sb, j);
    var x, y := f.blk[f.sb.IBlock(j)], Iupdate(f, i).blk[f.sb.IBlock(j)];
    var at, ws := 16 * (j % IPB), InodeWords(f.tab[i]);
    if i / IPB == j / IPB {
      InodePlace(i, j);
      var want := if i == j then ws else GetWords(x, at, 16);
      forall k | 0 <= k < 16 ensures GetWord(y, at + k) == want[k] {
        GetPutWords(x, 16 * (i % IPB), ws, at + k);
        assert GetWords(x, at, 16)[k] == GetWord(x, at + k);
      }
      SameWords(y, at, 16, want);
      assert ws[3..] == f.tab[i].addrs;
    }
  }

  lemma InodePlace(i: nat, j: nat)
    requires i / IPB == j / IPB
    ensures i != j ==> 16 * (i % IPB) + 16 <= 16 * (j % IPB) || 16 * (j % IPB) + 16 <= 16 * (i % IPB)
  {
  }

  /** iupdate is not felt by the bitmap, the slots or the files. */
  lemma IupdateOwned(f: Fs, owner: map<nat, Slot>, i: nat)
    requires Owned(f, owner) && i < f.sb.ninodes
    ensures Owned(Iupdate(f, i), owner) && SamePeeks(f, Iupdate(f, i))
    ensures forall j, l :: 0 <= j < f.sb.ninodes && 0 <= l < SLOTS ==> Ref(Iupdate(f, i), j, l) == Ref(f, j, l)
  {
    var g := Iupdate(f, i);
    InodeInside(f.sb, i);
    forall j, l | 0 <= j < f.sb.ninodes && 0 <= l < SLOTS ensures Ref(g, j, l) == Ref(f, j, l) {
      if f.tab[j].addrs[INDIRECT] != 0 {
        IndirectOwned(f, owner, j);
      }
    }
    hide Ref, Iupdate;
    forall b | 0 <= b < f.sb.size ensures Used(g, b) == Used(f, b) {
      BitmapInside(f.sb, b);
      IupdateElsewhere(f, i, f.sb.BBlock(b));
    }
    forall j, o | 0 <= j < f.sb.ninodes && 0 <= o < MAXFILE * BSIZE ensures Peek(g, j, o) == Peek(f, j, o) {
      var r := Ref(f, j, SlotOf(o / BSIZE));
      if r != 0 {
        assert OwnedBlock(f, owner[r], r);
        IupdateElsewhere(f, i, r);
      }
    }
    forall b | b in owner ensures OwnedBlock(g, owner[b], b) {
      assert OwnedBlock(f, owner[b], b);
    }
  }

  lemma IupdateElsewhere(f: Fs, i: nat, b: nat)
    requires Shape(f) && i < f.sb.ninodes && f.sb.BBlock(0) <= b < f.sb.size
    ensures Iupdate(f, i).blk[b] == f.blk[b]
  {
    InodeInside(f.sb, i);
  }
}
