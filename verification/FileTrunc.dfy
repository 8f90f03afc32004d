/** itrunc of fs.c frees exactly the blocks of its inode. */
module FileTrunc {
  import opened Blocks
  import opened Options
  import opened FileSystem
  import opened FileBytes
  import opened FileMaps

  /** bfree; None is its panic "freeing free block". */
  function Bfree(f: Fs, b: nat): (r: Option<Fs>)
    requires Shape(f)
    ensures r.Some? ==> Shape(r.value) && r.value.sb == f.sb && r.value.tab == f.tab
  {
    if b >= f.sb.size || !Used(f, b) then None else Some(Unmark(f, b))
  }

  function Detach(f: Fs, i: nat, k: nat): (g: Fs)
    requires Shape(f) && i < f.sb.ninodes && k <= INDIRECT
    ensures Shape(g) && g.sb == f.sb && g.blk == f.blk
  {
    f.(tab := f.tab[i := f.tab[i].(addrs := f.tab[i].addrs[k := 0])])
  }

  /** The loop over the direct blocks, from k on. */
  function TruncDirect(f: Fs, i: nat, k: nat): (r: Option<Fs>)
    requires Shape(f) && i < f.sb.ninodes && k <= NDIRECT
    ensures r.Some? ==> Shape(r.value) && r.value.sb == f.sb
    decreases NDIRECT - k
  {
    if k == NDIRECT then Some(f)
    else if f.tab[i].addrs[k] == 0 then TruncDirect(f, i, k + 1)
    else
      var g := Bfree(f, f.tab[i].addrs[k]);
      if g.None? then None else TruncDirect(Detach(g.value, i, k), i, k + 1)
  }

  /** The loop over the words a of the indirect block, from j on. */
  function TruncIndirect(f: Fs, a: Block, j: nat): (r: Option<Fs>)
    requires Shape(f) && j <= NINDIRECT
    ensures r.Some? ==> Shape(r.value) && r.value.sb == f.sb && r.value.tab == f.tab
    decreases NINDIRECT - j
  {
    if j == NINDIRECT then Some(f)
    else if GetWord(a, j) == 0 then TruncIndirect(f, a, j + 1)
    else
      var g := Bfree(f, GetWord(a, j));
      if g.None? then None else TruncIndirect(g.value, a, j + 1)
  }

  /** The part of itrunc under if(ip->addrs[NDIRECT]). */
  function TruncPointer(f: Fs, i: nat): (r: Option<Fs>)
    requires Shape(f) && i < f.sb.ninodes
    ensures r.Some? ==> Shape(r.value) && r.value.sb == f.sb
  {
    var ind := f.tab[i].addrs[INDIRECT];
    if ind == 0 then Some(f)
    else if ind >= f.sb.size then None
    else
      var g := TruncIndirect(f, f.blk[ind], 0);
      if g.None? then None
      else
        var h := Bfree(g.value, ind);
        if h.None? then None else Some(Detach(h.value, i, INDIRECT))
  }

  function Itrunc(f: Fs, i: nat): (r: Option<Fs>)
    requires Shape(f) && i < f.sb.ninodes
    ensures r.Some? ==> Shape(r.value) && r.value.sb == f.sb
  {
    var g := TruncDirect(f, i, 0);
    if g.None? then None
    else
      var h := TruncPointer(g.value, i);
      if h.None? then None else Some(Iupdate(Resize(h.value, i, 0), i))
  }

  // ----- What has been freed so far -----

  /** The blocks that slots lo to hi - 1 of inode i own. */
  ghost function OwnedIn(owner: map<nat, Slot>, i: nat, lo: nat, hi: nat): set<nat> {
    set b | b in owner && owner[b].inum == i && lo <= owner[b].k < hi
  }

  /** g is f with the blocks S free and some block numbers of inode i dropped. */
  ghost predicate Cleared(f: Fs, g: Fs, i: nat, S: set<nat>) {
    && Shape(f) && Shape(g) && g.sb == f.sb && i < f.sb.ninodes
    && (forall b :: 0 <= b < f.sb.size ==> (Used(g, b) <==> Used(f, b) && b !in S))
    && (forall s :: 0 <= s < f.sb.size && (s < f.sb.BBlock(0) || s >= f.sb.DataStart()) ==> g.blk[s] == f.blk[s])
    && (forall j :: 0 <= j < f.sb.ninodes && j != i ==> g.tab[j] == f.tab[j])
    && g.tab[i] == f.tab[i].(addrs := g.tab[i].addrs)
  }

  lemma BfreeCleared(f: Fs, g: Fs, i: nat, S: set<nat>, b: nat)
    requires Cleared(f, g, i, S) && b < f.sb.size && Used(f, b) && b !in S
    ensures Bfree(g, b).Some? && Cleared(f, Bfree(g, b).value, i, S + {b})
  {
    var h := Unmark(g, b);
    BitmapInside(g.sb, b);
    BitmapPlace(g.sb, b);
    hide Used;
    forall c | 0 <= c < f.sb.size ensures Used(h, c) <==> Used(f, c) && c !in S + {b} {
      UnmarkUsed(g, b, c);
    }
  }

  lemma BitmapPlace(sb: Super, b: nat)
    requires b < sb.size
    ensures sb.BBlock(0) <= sb.BBlock(b) < sb.DataStart()
  {
  }

  lemma DetachCleared(f: Fs, g: Fs, i: nat, S: set<nat>, k: nat)
    requires Cleared(f, g, i, S) && k <= INDIRECT
    ensures Cleared(f, Detach(g, i, k), i, S)
  {
    var h := Detach(g, i, k);
    forall b | 0 <= b < f.sb.size ensures Used(h, b) == Used(g, b) {
    }
  }

  /** One more slot's block. */
  lemma OwnedNext(f: Fs, owner: map<nat, Slot>, i: nat, lo: nat, k: nat)
    requires Owned(f, owner) && i < f.sb.ninodes && lo <= k < SLOTS
    ensures var r := Ref(f, i, k);
            && OwnedIn(owner, i, lo, k + 1) == OwnedIn(owner, i, lo, k) + (if r == 0 then {} else {r})
            && (r != 0 ==> r < f.sb.size && Used(f, r) && r !in OwnedIn(owner, i, lo, k) && r in owner && owner[r] == Slot(i, k))
  {
    hide Ref, Used;
    var r := Ref(f, i, k);
    if r != 0 {
      assert OwnedBlock(f, owner[r], r);
    }
    forall b | b in OwnedIn(owner, i, lo, k + 1) ensures b in OwnedIn(owner, i, lo, k) || b == r {
      assert OwnedBlock(f, owner[b], b);
    }
  }

  predicate DirectCleared(f: Fs, g: Fs, i: nat, k: nat)
    requires Shape(f) && Shape(g) && g.sb == f.sb && i < f.sb.ninodes && k <= NDIRECT
  {
    forall l :: 0 <= l <= INDIRECT ==> g.tab[i].addrs[l] == if l < k then 0 else f.tab[i].addrs[l]
  }

  lemma {:induction false} DirectFrees(f: Fs, owner: map<nat, Slot>, g: Fs, i: nat, k: nat)
    requires Owned(f, owner) && Cleared(f, g, i, OwnedIn(owner, i, 0, k)) && k <= NDIRECT && DirectCleared(f, g, i, k)
    ensures TruncDirect(g, i, k).Some?
    ensures var h := TruncDirect(g, i, k).value;
            Cleared(f, h, i, OwnedIn(owner, i, 0, NDIRECT)) && DirectCleared(f, h, i, NDIRECT)
    decreases NDIRECT - k
  {
    hide Cleared, Owned, OwnedIn, Bfree;
    ClearedShape(f, g, i, OwnedIn(owner, i, 0, k));
    if k < NDIRECT {
      OwnedNext(f, owner, i, 0, k);
      assert Ref(f, i, k) == f.tab[i].addrs[k];
      if f.tab[i].addrs[k] == 0 {
        SetSame(OwnedIn(owner, i, 0, k));
        DirectFrees(f, owner, g, i, k + 1);
      } else {
        var b := f.tab[i].addrs[k];
        BfreeCleared(f, g, i, OwnedIn(owner, i, 0, k), b);
        var h := Bfree(g, b).value;
        DetachCleared(f, h, i, OwnedIn(owner, i, 0, k + 1), k);
        DirectFrees(f, owner, Detach(h, i, k), i, k + 1);
      }
    }
  }

  lemma SetSame(s: set<nat>)
    ensures s + {} == s
  {
  }

  lemma ClearedShape(f: Fs, g: Fs, i: nat, S: set<nat>)
    requires Cleared(f, g, i, S)
    ensures Shape(f) && Shape(g) && g.sb == f.sb && i < f.sb.ninodes
  {
  }

  lemma {:induction false} IndirectFrees(f: Fs, owner: map<nat, Slot>, g: Fs, i: nat, j: nat)
    requires Owned(f, owner) && i < f.sb.ninodes && 0 < f.tab[i].addrs[INDIRECT] < f.sb.size && j <= NINDIRECT
    requires Cleared(f, g, i, OwnedIn(owner, i, 0, NDIRECT) + OwnedIn(owner, i, INDIRECT + 1, INDIRECT + 1 + j))
    ensures TruncIndirect(g, f.blk[f.tab[i].addrs[INDIRECT]], j).Some?
    ensures Cleared(f, TruncIndirect(g, f.blk[f.tab[i].addrs[INDIRECT]], j).value, i,
                    OwnedIn(owner, i, 0, NDIRECT) + OwnedIn(owner, i, INDIRECT + 1, SLOTS))
    decreases NINDIRECT - j
  {
    hide Cleared, Owned, Bfree, GetWord;
    var S, T := OwnedIn(owner, i, 0, NDIRECT), OwnedIn(owner, i, INDIRECT + 1, INDIRECT + 1 + j);
    ClearedShape(f, g, i, S + T);
    if j < NINDIRECT {
      var a := f.blk[f.tab[i].addrs[INDIRECT]];
      OwnedNext(f, owner, i, INDIRECT + 1, INDIRECT + 1 + j);
      var b := Ref(f, i, INDIRECT + 1 + j);
      assert b == GetWord(a, j);
      if b == 0 {
        SetSame(T);
        IndirectFrees(f, owner, g, i, j + 1);
      } else {
        BfreeCleared(f, g, i, S + T, b);
        assert S + T + {b} == S + (T + {b});
        IndirectFrees(f, owner, Bfree(g, b).value, i, j + 1);
      }
    }
  }

  /** All the blocks of inode i. */
  ghost function Mine(owner: map<nat, Slot>, i: nat): set<nat> {
    set b | b in owner && owner[b].inum == i
  }

  lemma MineParts(f: Fs, owner: map<nat, Slot>, i: nat)
    requires Owned(f, owner) && i < f.sb.ninodes
    ensures var ind := f.tab[i].addrs[INDIRECT];
            && (ind == 0 ==> Mine(owner, i) == OwnedIn(owner, i, 0, NDIRECT))
            && (ind != 0 ==> Mine(owner, i) == OwnedIn(owner, i, 0, NDIRECT) + OwnedIn(owner, i, INDIRECT + 1, SLOTS) + {ind})
            && (ind != 0 ==> ind !in OwnedIn(owner, i, 0, NDIRECT) + OwnedIn(owner, i, INDIRECT + 1, SLOTS))
            && (ind != 0 ==> ind < f.sb.size && Used(f, ind))
  {
    var ind := f.tab[i].addrs[INDIRECT];
    if ind != 0 {
      IndirectOwned(f, owner, i);
    }
    forall b | b in Mine(owner, i)
      ensures b in OwnedIn(owner, i, 0, NDIRECT) || (ind != 0 && (b == ind || b in OwnedIn(owner, i, INDIRECT + 1, SLOTS)))
    {
      assert OwnedBlock(f, owner[b], b);
    }
  }

  lemma PointerFrees(f: Fs, owner: map<nat, Slot>, g: Fs, i: nat)
    requires Owned(f, owner) && Cleared(f, g, i, OwnedIn(owner, i, 0, NDIRECT)) && DirectCleared(f, g, i, NDIRECT)
    ensures TruncPointer(g, i).Some?
    ensures var h := TruncPointer(g, i).value;
            Cleared(f, h, i, Mine(owner, i)) && forall l :: 0 <= l <= INDIRECT ==> h.tab[i].addrs[l] == 0
  {
    hide Owned, OwnedIn, Bfree, TruncIndirect, Mine, Used;
    var ind := f.tab[i].addrs[INDIRECT];
    assert g.tab[i].addrs[INDIRECT] == ind;
    MineParts(f, owner, i);
    if ind != 0 {
      IndirectOwned(f, owner, i);
      var S := OwnedIn(owner, i, 0, NDIRECT);
      NothingOwned(owner, i, INDIRECT + 1);
      assert S + {} == S;
      IndirectFrees(f, owner, g, i, 0);
      var T := OwnedIn(owner, i, INDIRECT + 1, SLOTS);
      var h := TruncIndirect(g, f.blk[ind], 0).value;
      BfreeCleared(f, h, i, S + T, ind);
      DetachCleared(f, Bfree(h, ind).value, i, S + T + {ind}, INDIRECT);
    }
  }

  lemma NothingOwned(owner: map<nat, Slot>, i: nat, k: nat)
    ensures OwnedIn(owner, i, k, k) == {}
  {
  }

  function OthersOf(owner: map<nat, Slot>, i: nat): map<nat, Slot> {
    map b | b in owner && owner[b].inum != i :: owner[b]
  }

  /** With its block numbers gone and its blocks free, inode i owns nothing, and the
      others own what they did. */
  lemma ClearedRef(f: Fs, owner: map<nat, Slot>, g: Fs, i: nat, j: nat, l: nat)
    requires Owned(f, owner) && Cleared(f, g, i, Mine(owner, i)) && j < f.sb.ninodes && l < SLOTS
    requires forall l :: 0 <= l <= INDIRECT ==> g.tab[i].addrs[l] == 0
    ensures Ref(g, j, l) == if j == i then 0 else Ref(f, j, l)
  {
    if j != i && f.tab[j].addrs[INDIRECT] != 0 {
      IndirectOwned(f, owner, j);
    }
  }

  lemma ClearedOwned(f: Fs, owner: map<nat, Slot>, g: Fs, i: nat)
    requires Owned(f, owner) && Cleared(f, g, i, Mine(owner, i))
    requires forall l :: 0 <= l <= INDIRECT ==> g.tab[i].addrs[l] == 0
    ensures Owned(g, OthersOf(owner, i))
    ensures forall j, o :: 0 <= j < f.sb.ninodes && j != i && 0 <= o < MAXFILE * BSIZE ==> Peek(g, j, o) == Peek(f, j, o)
  {
    hide Ref, Used;
    var rest := OthersOf(owner, i);
    forall j, l | 0 <= j < f.sb.ninodes && 0 <= l < SLOTS ensures Ref(g, j, l) == if j == i then 0 else Ref(f, j, l) {
      ClearedRef(f, owner, g, i, j, l);
    }
    forall b | b in rest ensures OwnedBlock(g, rest[b], b) {
      assert OwnedBlock(f, owner[b], b);
    }
    forall b | b in Mine(owner, i) ensures f.sb.DataStart() <= b {
      assert OwnedBlock(f, owner[b], b);
    }
    forall j, o | 0 <= j < f.sb.ninodes && j != i && 0 <= o < MAXFILE * BSIZE ensures Peek(g, j, o) == Peek(f, j, o) {
      var r := Ref(f, j, SlotOf(o / BSIZE));
      if r != 0 {
        assert OwnedBlock(f, owner[r], r);
      }
    }
  }

  /** itrunc succeeds, frees the blocks of its inode and no others, leaves it empty in
      memory and on disk, and touches no other file. */
  lemma ItruncCorrect(f: Fs, owner: map<nat, Slot>, i: nat)
    requires Owned(f, owner) && SizesOk(f) && i < f.sb.ninodes
    ensures Itrunc(f, i).Some?
    ensures var g := Itrunc(f, i).value;
            && Owned(g, OthersOf(owner, i))
            && (forall b :: 0 <= b < f.sb.size ==> (Used(g, b) <==> Used(f, b) && !(b in owner && owner[b].inum == i)))
            && g.tab[i].size == 0 && (forall l :: 0 <= l <= INDIRECT ==> g.tab[i].addrs[l] == 0) && Synced(g, i)
            && (forall j :: 0 <= j < f.sb.ninodes && j != i ==> g.tab[j] == f.tab[j] && Bytes(g, j) == Bytes(f, j))
  {
    hide Ref, Used, TruncDirect, TruncPointer, Iupdate, Peek, SlotsOwned, OwnersHold, BitmapExact;
    NothingOwned(owner, i, 0);
    DirectFrees(f, owner, f, i, 0);
    var d := TruncDirect(f, i, 0).value;
    PointerFrees(f, owner, d, i);
    var p := TruncPointer(d, i).value;
    ClearedOwned(f, owner, p, i);
    var rest := OthersOf(owner, i);
    var z := Resize(p, i, 0);
    ResizeSame(p, rest, i, 0);
    IupdateOwned(z, rest, i);
    IupdateSync(z, i, i);
    var g := Iupdate(z, i);
    SameUsed(p, g, rest);
    forall j | 0 <= j < f.sb.ninodes && j != i ensures Bytes(g, j) == Bytes(f, j) {
    }
  }

  /** The slots of the other inodes, and their inodes on disk, stay. */
  lemma ItruncElsewhere(f: Fs, owner: map<nat, Slot>, i: nat, j: nat)
    requires Owned(f, owner) && SizesOk(f) && i < f.sb.ninodes && j < f.sb.ninodes && Synced(f, j)
    ensures Itrunc(f, i).Some?
    ensures var g := Itrunc(f, i).value;
            && (forall l :: 0 <= l < SLOTS ==> Ref(g, j, l) == if j == i then 0 else Ref(f, j, l))
            && Synced(g, j) && g.tab[j].size == if j == i then 0 else f.tab[j].size
  {
    hide Ref, Used, TruncDirect, TruncPointer, Iupdate, Peek, Dinode, SlotsOwned, OwnersHold, BitmapExact;
    NothingOwned(owner, i, 0);
    DirectFrees(f, owner, f, i, 0);
    var d := TruncDirect(f, i, 0).value;
    PointerFrees(f, owner, d, i);
    var p := TruncPointer(d, i).value;
    ClearedOwned(f, owner, p, i);
    var rest := OthersOf(owner, i);
    var z := Resize(p, i, 0);
    ResizeSame(p, rest, i, 0);
    IupdateOwned(z, rest, i);
    IupdateSync(z, i, j);
    SameDinode(f, p, j);
    SameDinode(p, z, j);
    forall l | 0 <= l < SLOTS ensures Ref(Iupdate(z, i), j, l) == if j == i then 0 else Ref(f, j, l) {
      ClearedRef(f, owner, p, i, j, l);
    }
  }

  lemma SameUsed(f: Fs, g: Fs, owner: map<nat, Slot>)
    requires Owned(f, owner) && Owned(g, owner) && f.sb == g.sb
    ensures forall b :: 0 <= b < f.sb.size ==> Used(g, b) == Used(f, b)
  {
  }
}
