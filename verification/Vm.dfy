/** Page tables and the page allocator: vm.c and kalloc.c. Memory is an array of pages,
    each 1024 words; a free page holds the address of the next one in its first word, a
    page directory and a page table hold entries. Virtual addresses are page numbers. */
module Vm {
  import opened Blocks
  import opened Counting

  const PGSIZE: nat := 4096
  const ENTRIES: nat := 1024
  const KERNBASE: Word := 0x8000_0000
  const DEVSPACE: Word := 0xFE00_0000
  const EXTMEM: Word := 0x10_0000
  const PHYSTOP: Word := 0xE00_0000

  /** The number of physical pages, of virtual pages, and of those below KERNBASE. */
  const PAGES: nat := 0xE000
  const VPAGES: nat := 0x10_0000
  const USER: nat := 0x8_0000

  type Page = p: seq<Word> | |p| == 1024 witness seq(1024, _ => 0)

  function Filled(w: Word): Page {
    seq(1024, _ => w)
  }

  /** p2v of a physical page */
  function Kv(p: nat): (v: Word)
    requires p < PAGES
    ensures v >= KERNBASE && v % PGSIZE == 0 && (v - KERNBASE) / PGSIZE == p
  {
    KERNBASE + p * PGSIZE
  }

  // ----- The free list -----

  predicate InRange(free: seq<nat>, first: nat) {
    forall i :: 0 <= i < |free| ==> first <= free[i] < PAGES
  }

  function Link(free: seq<nat>, i: nat): Word
    requires InRange(free, 0)
  {
    if i < |free| then Kv(free[i]) else 0
  }

  predicate Distinct(free: seq<nat>) {
    forall i, j :: 0 <= i < j < |free| ==> free[i] != free[j]
  }

  /** The pages reached from the list's head, from first on and no two alike. */
  predicate Chain(mem: seq<Page>, head: Word, free: seq<nat>, first: nat) {
    && |mem| == PAGES && 0 < first && Distinct(free) && InRange(free, first)
    && head == Link(free, 0)
    && forall i :: 0 <= i < |free| ==> mem[free[i]][0] == Link(free, i + 1)
  }

  function Elems(xs: seq<nat>): set<nat> {
    set x | x in xs
  }

  lemma ChainHead(mem: seq<Page>, head: Word, free: seq<nat>, first: nat)
    requires Chain(mem, head, free, first)
    ensures |mem| == PAGES && (head == 0 <==> free == [])
    ensures free != [] ==> first <= free[0] < PAGES && head == Kv(free[0])
  {
  }

  lemma PageOf(v: Word, first: nat)
    requires v % PGSIZE == 0 && KERNBASE + first * PGSIZE <= v < KERNBASE + PHYSTOP
    ensures var p := (v - KERNBASE) / PGSIZE; first <= p < PAGES && v == Kv(p)
  {
  }

  lemma PopChain(mem: seq<Page>, head: Word, free: seq<nat>, first: nat)
    requires Chain(mem, head, free, first) && free != []
    ensures head == Kv(free[0]) && Chain(mem, mem[free[0]][0], free[1..], first)
    ensures free[0] !in free[1..] && Elems(free) == Elems(free[1..]) + {free[0]}
  {
    hide Elems, Link, Kv;
    ChainHead(mem, head, free, first);
    var f := free[1..];
    LinkTail(free, 0);
    forall i | 0 <= i < |f| ensures mem[f[i]][0] == Link(f, i + 1) {
      LinkTail(free, i + 1);
      assert mem[free[i + 1]][0] == Link(free, i + 2);
    }
    PushElems(free[0], f);
    assert free == [free[0]] + f;
  }

  lemma LinkTail(free: seq<nat>, i: nat)
    requires free != [] && InRange(free, 0)
    ensures InRange(free[1..], 0) && Link(free[1..], i) == Link(free, i + 1)
  {
    hide Kv;
  }

  lemma LinkNext(p: nat, free: seq<nat>, i: nat)
    requires InRange(free, 0) && p < PAGES
    ensures InRange([p] + free, 0) && Link([p] + free, i + 1) == Link(free, i) && Link([p] + free, 0) == Kv(p)
  {
  }

  lemma PushChain(mem: seq<Page>, head: Word, free: seq<nat>, first: nat, p: nat, page: Page)
    requires Chain(mem, head, free, first) && first <= p < PAGES && p !in free && page[0] == head
    ensures Chain(mem[p := page], Kv(p), [p] + free, first)
    ensures Elems([p] + free) == Elems(free) + {p}
  {
    hide Link, Kv;
    var f, mem' := [p] + free, mem[p := page];
    LinkNext(p, free, 0);
    forall i | 0 <= i < |f| ensures mem'[f[i]][0] == Link(f, i + 1) {
      LinkNext(p, free, i);
      if i > 0 {
        assert f[i] == free[i - 1];
        assert mem[free[i - 1]][0] == Link(free, i);
      }
    }
    PushElems(p, free);
  }

  lemma PushElems(p: nat, free: seq<nat>)
    ensures Elems([p] + free) == Elems(free) + {p}
  {
  }

  // ----- Directories -----

  predicate Here(w: Word) {
    w % 2 == 1
  }

  function Frame(w: Word): nat {
    w / PGSIZE
  }

  function Flags(w: Word): nat {
    w % PGSIZE
  }

  /** PTE_P, PTE_W and PTE_U: present, writable, the user's. */
  const USER_FLAGS: nat := 7

  /** The entry for virtual page v, zero where there is no table. */
  function Pte(mem: seq<Page>, pd: nat, v: nat): Word
    requires |mem| == PAGES && pd < PAGES && v < VPAGES
  {
    var pde := mem[pd][v / ENTRIES];
    if Here(pde) && Frame(pde) < PAGES then mem[Frame(pde)][v % ENTRIES] else 0
  }

  /** What a page of an address space is for. */
  datatype Use = Dir | Table(i: nat) | User(v: nat)

  predicate Serves(mem: seq<Page>, pd: nat, b: nat, use: Use)
    requires |mem| == PAGES && pd < PAGES
  {
    match use
    case Dir => b == pd
    case Table(i) => i < ENTRIES && Here(mem[pd][i]) && Frame(mem[pd][i]) == b
    case User(v) => v < USER && Here(Pte(mem, pd, v)) && Frame(Pte(mem, pd, v)) == b
  }

  /** The address space of directory pd: `own` gives each of its pages its one use, every
      table and every user page is among them, and `mapped` are its virtual pages. */
  ghost predicate Space(mem: seq<Page>, first: nat, pd: nat, own: map<nat, Use>, mapped: set<nat>) {
    && |mem| == PAGES && pd < PAGES && pd in own && own[pd] == Dir
    && (forall i :: 0 <= i < ENTRIES && Here(mem[pd][i]) ==> TableOwned(mem, pd, own, i))
    && (forall v :: 0 <= v < USER && Here(Pte(mem, pd, v)) ==> UserOwned(mem, pd, own, v))
    && (forall b :: b in own ==> first <= b < PAGES && Serves(mem, pd, b, own[b]))
    && (forall v :: 0 <= v < VPAGES ==> (Here(Pte(mem, pd, v)) <==> v in mapped))
  }

  predicate TableOwned(mem: seq<Page>, pd: nat, own: map<nat, Use>, i: nat)
    requires |mem| == PAGES && pd < PAGES && i < ENTRIES
  {
    Frame(mem[pd][i]) in own && own[Frame(mem[pd][i])] == Table(i) && Flags(mem[pd][i]) == USER_FLAGS
  }

  predicate UserOwned(mem: seq<Page>, pd: nat, own: map<nat, Use>, v: nat)
    requires |mem| == PAGES && pd < PAGES && v < VPAGES
  {
    Frame(Pte(mem, pd, v)) in own && own[Frame(Pte(mem, pd, v))] == User(v) && Flags(Pte(mem, pd, v)) == USER_FLAGS
  }

  /** The regions of 1024 pages that have a page table. */
  ghost function Tables(mem: seq<Page>, pd: nat): set<nat> {
    if |mem| == PAGES && pd < PAGES then set i | 0 <= i < ENTRIES && Here(mem[pd][i]) else {}
  }

  lemma SameTables(mem: seq<Page>, mem': seq<Page>, pd: nat)
    requires |mem| == |mem'| == PAGES && pd < PAGES && mem'[pd] == mem[pd]
    ensures Tables(mem', pd) == Tables(mem, pd)
  {
  }

  /** The regions of the virtual pages a up to b. */
  function Regions(a: nat, b: nat): set<nat> {
    if a >= b then {} else Range(a / ENTRIES, (b - 1) / ENTRIES + 1)
  }

  lemma RegionsNone(a: nat)
    ensures Regions(a, a) == {}
  {
  }

  lemma RegionsNext(a: nat, v: nat)
    requires a <= v
    ensures Regions(a, v + 1) == Regions(a, v) + {v / ENTRIES}
  {
  }

  /** Pages that are neither directory nor table may change. */
  lemma SpaceElsewhere(mem: seq<Page>, mem': seq<Page>, first: nat, pd: nat, own: map<nat, Use>, mapped: set<nat>)
    requires Space(mem, first, pd, own, mapped) && |mem'| == PAGES
    requires forall b :: b in own && !own[b].User? ==> mem'[b] == mem[b]
    ensures Space(mem', first, pd, own, mapped)
    ensures forall v :: 0 <= v < VPAGES ==> Pte(mem', pd, v) == Pte(mem, pd, v)
  {
    forall v | 0 <= v < VPAGES ensures Pte(mem', pd, v) == Pte(mem, pd, v) {
      var pde := mem[pd][v / ENTRIES];
      if Here(pde) {
        assert TableOwned(mem, pd, own, v / ENTRIES);
      }
    }
    hide Pte;
    forall i | 0 <= i < ENTRIES && Here(mem'[pd][i]) ensures TableOwned(mem', pd, own, i) {
      assert TableOwned(mem, pd, own, i);
    }
    forall v | 0 <= v < USER && Here(Pte(mem', pd, v)) ensures UserOwned(mem', pd, own, v) {
      assert UserOwned(mem, pd, own, v);
    }
    forall b | b in own ensures first <= b < PAGES && Serves(mem', pd, b, own[b]) {
      assert Serves(mem, pd, b, own[b]);
    }
  }

  function AddTable(mem: seq<Page>, pd: nat, i: nat, t: nat): (mem': seq<Page>)
    requires |mem| == PAGES && pd < PAGES && i < ENTRIES && t < PAGES
    ensures |mem'| == PAGES
  {
    mem[t := Filled(0)][pd := mem[pd][i := t * PGSIZE + 7]]
  }

  lemma AddTablePte(mem: seq<Page>, first: nat, pd: nat, own: map<nat, Use>, mapped: set<nat>, i: nat, t: nat, v: nat)
    requires Space(mem, first, pd, own, mapped) && i < ENTRIES && !Here(mem[pd][i]) && first <= t < PAGES && t !in own
    requires v < VPAGES
    ensures Pte(AddTable(mem, pd, i, t), pd, v) == Pte(mem, pd, v)
  {
    if Here(mem[pd][v / ENTRIES]) {
      assert TableOwned(mem, pd, own, v / ENTRIES);
    }
  }

  /** A new, empty page table. */
  lemma SpaceTable(mem: seq<Page>, first: nat, pd: nat, own: map<nat, Use>, mapped: set<nat>, i: nat, t: nat)
    requires Space(mem, first, pd, own, mapped) && i < ENTRIES && !Here(mem[pd][i]) && first <= t < PAGES && t !in own
    ensures Space(AddTable(mem, pd, i, t), first, pd, own[t := Table(i)], mapped)
  {
    hide Pte, AddTable;
    var mem', own' := AddTable(mem, pd, i, t), own[t := Table(i)];
    AddTableDir(mem, pd, i, t);
    forall v | 0 <= v < VPAGES ensures Pte(mem', pd, v) == Pte(mem, pd, v) {
      AddTablePte(mem, first, pd, own, mapped, i, t, v);
    }
    forall k | 0 <= k < ENTRIES && Here(mem'[pd][k]) ensures TableOwned(mem', pd, own', k) {
      if k != i {
        assert TableOwned(mem, pd, own, k);
      }
    }
    forall v | 0 <= v < USER && Here(Pte(mem', pd, v)) ensures UserOwned(mem', pd, own', v) {
      assert UserOwned(mem, pd, own, v);
    }
    forall b | b in own' ensures first <= b < PAGES && Serves(mem', pd, b, own'[b]) {
      if b != t {
        assert Serves(mem, pd, b, own[b]);
      }
    }
  }

  lemma AddTableDir(mem: seq<Page>, pd: nat, i: nat, t: nat)
    requires |mem| == PAGES && pd < PAGES && i < ENTRIES && t < PAGES
    ensures AddTable(mem, pd, i, t)[pd] == mem[pd][i := t * PGSIZE + 7]
    ensures Here(t * PGSIZE + 7) && Frame(t * PGSIZE + 7) == t
  {
  }

  /** The table of virtual page v. */
  function TableOf(mem: seq<Page>, pd: nat, v: nat): nat
    requires |mem| == PAGES && pd < PAGES && v < VPAGES
  {
    Frame(mem[pd][v / ENTRIES])
  }

  predicate HasTable(mem: seq<Page>, pd: nat, v: nat)
    requires |mem| == PAGES && pd < PAGES && v < VPAGES
  {
    Here(mem[pd][v / ENTRIES])
  }

  function SetPte(mem: seq<Page>, pd: nat, v: nat, w: Word): (mem': seq<Page>)
    requires |mem| == PAGES && pd < PAGES && v < VPAGES && TableOf(mem, pd, v) < PAGES
    ensures |mem'| == PAGES
  {
    var t := TableOf(mem, pd, v);
    mem[t := mem[t][v % ENTRIES := w]]
  }

  lemma SpaceTableOf(mem: seq<Page>, first: nat, pd: nat, own: map<nat, Use>, mapped: set<nat>, v: nat)
    requires Space(mem, first, pd, own, mapped) && v < VPAGES
    ensures v in mapped ==> HasTable(mem, pd, v)
    ensures HasTable(mem, pd, v) ==>
              var t := TableOf(mem, pd, v);
              t in own && own[t] == Table(v / ENTRIES) && first <= t < PAGES && t != pd && mem[t][v % ENTRIES] == Pte(mem, pd, v)
    ensures v in mapped <==> Here(Pte(mem, pd, v))
  {
    if HasTable(mem, pd, v) {
      assert TableOwned(mem, pd, own, v / ENTRIES);
    }
  }

  /** An entry written changes that virtual page only. */
  lemma SetPteAt(mem: seq<Page>, first: nat, pd: nat, own: map<nat, Use>, mapped: set<nat>, v: nat, w: Word, x: nat)
    requires Space(mem, first, pd, own, mapped) && v < VPAGES && HasTable(mem, pd, v) && x < VPAGES
    ensures TableOf(mem, pd, v) < PAGES
    ensures SetPte(mem, pd, v, w)[pd] == mem[pd]
    ensures Pte(SetPte(mem, pd, v, w), pd, x) == if x == v then w else Pte(mem, pd, x)
  {
    SpaceTableOf(mem, first, pd, own, mapped, v);
    SpaceTableOf(mem, first, pd, own, mapped, x);
    if x / ENTRIES == v / ENTRIES && x % ENTRIES == v % ENTRIES {
      assert x == v;
    }
  }

  lemma EntryOf(f: nat)
    requires f < PAGES
    ensures f * PGSIZE + 7 < 0x1_0000_0000 && Here(f * PGSIZE + 7) && Frame(f * PGSIZE + 7) == f
  {
  }

  lemma SpaceSetUser(mem: seq<Page>, first: nat, pd: nat, own: map<nat, Use>, mapped: set<nat>, v: nat, f: nat)
    requires Space(mem, first, pd, own, mapped) && v < USER && HasTable(mem, pd, v) && v !in mapped
    requires f !in own && first <= f < PAGES
    ensures TableOf(mem, pd, v) < PAGES
    ensures Space(SetPte(mem, pd, v, f * PGSIZE + 7), first, pd, own[f := User(v)], mapped + {v})
  {
    hide Pte, SetPte, Here, Frame;
    EntryOf(f);
    var w := f * PGSIZE + 7;
    SetPteAt(mem, first, pd, own, mapped, v, w, v);
    var mem' := SetPte(mem, pd, v, w);
    var own' := own[f := User(v)];
    forall x | 0 <= x < VPAGES ensures Pte(mem', pd, x) == if x == v then w else Pte(mem, pd, x) {
      SetPteAt(mem, first, pd, own, mapped, v, w, x);
    }
    forall k | 0 <= k < ENTRIES && Here(mem'[pd][k]) ensures TableOwned(mem', pd, own', k) {
      assert TableOwned(mem, pd, own, k);
    }
    forall x | 0 <= x < USER && Here(Pte(mem', pd, x)) ensures UserOwned(mem', pd, own', x) {
      if x != v {
        assert UserOwned(mem, pd, own, x);
      }
    }
    forall b | b in own' ensures first <= b < PAGES && Serves(mem', pd, b, own'[b]) {
      if b != f {
        assert Serves(mem, pd, b, own[b]);
      }
    }
  }

  lemma SpaceSetKernel(mem: seq<Page>, first: nat, pd: nat, own: map<nat, Use>, mapped: set<nat>, v: nat, w: Word)
    requires Space(mem, first, pd, own, mapped) && USER <= v < VPAGES && HasTable(mem, pd, v) && Here(w)
    ensures TableOf(mem, pd, v) < PAGES
    ensures Space(SetPte(mem, pd, v, w), first, pd, own, mapped + {v})
  {
    hide Pte, SetPte, Frame;
    SetPteAt(mem, first, pd, own, mapped, v, w, v);
    var mem' := SetPte(mem, pd, v, w);
    forall x | 0 <= x < VPAGES ensures Pte(mem', pd, x) == if x == v then w else Pte(mem, pd, x) {
      SetPteAt(mem, first, pd, own, mapped, v, w, x);
    }
    forall k | 0 <= k < ENTRIES && Here(mem'[pd][k]) ensures TableOwned(mem', pd, own, k) {
      assert TableOwned(mem, pd, own, k);
    }
    forall x | 0 <= x < USER && Here(Pte(mem', pd, x)) ensures UserOwned(mem', pd, own, x) {
      assert UserOwned(mem, pd, own, x);
    }
    forall b | b in own ensures first <= b < PAGES && Serves(mem', pd, b, own[b]) {
      assert Serves(mem, pd, b, own[b]);
    }
  }

  lemma SpaceClear(mem: seq<Page>, first: nat, pd: nat, own: map<nat, Use>, mapped: set<nat>, v: nat)
    requires Space(mem, first, pd, own, mapped) && v < USER && v in mapped
    ensures var f := Frame(Pte(mem, pd, v)); f in own && own[f] == User(v) && first <= f < PAGES
    ensures HasTable(mem, pd, v) && TableOf(mem, pd, v) < PAGES
    ensures Space(SetPte(mem, pd, v, 0), first, pd, own - {Frame(Pte(mem, pd, v))}, mapped - {v})
  {
    hide Pte, SetPte, Frame;
    assert UserOwned(mem, pd, own, v);
    SpaceTableOf(mem, first, pd, own, mapped, v);
    var f := Frame(Pte(mem, pd, v));
    SetPteAt(mem, first, pd, own, mapped, v, 0, v);
    var mem' := SetPte(mem, pd, v, 0);
    var own' := own - {f};
    forall x | 0 <= x < VPAGES ensures Pte(mem', pd, x) == if x == v then 0 else Pte(mem, pd, x) {
      SetPteAt(mem, first, pd, own, mapped, v, 0, x);
    }
    forall k | 0 <= k < ENTRIES && Here(mem'[pd][k]) ensures TableOwned(mem', pd, own', k) {
      assert TableOwned(mem, pd, own, k);
    }
    forall x | 0 <= x < USER && Here(Pte(mem', pd, x)) ensures UserOwned(mem', pd, own', x) {
      assert UserOwned(mem, pd, own, x);
    }
    forall b | b in own' ensures first <= b < PAGES && Serves(mem', pd, b, own'[b]) {
      assert Serves(mem, pd, b, own[b]);
    }
  }

  // ----- The code -----

  /** A directory and the allocator together: no page of the one is free in the other. */
  ghost predicate Apart(own: map<nat, Use>, free: seq<nat>) {
    forall b :: b in own ==> b !in free
  }

  /** What mappages comes to: 0, -1, or its panic. */
  datatype Mapping = Done | NoTable | Remap

  predicate PermOk(perm: Word) {
    perm % 2 == 0 && perm < PGSIZE - 1
  }

  class Memory {
    /** The first page after the kernel. */
    const first: nat
    var mem: seq<Page>
    var freelist: Word
    ghost var free: seq<nat>

    ghost predicate Valid()
      reads this
    {
      Chain(mem, freelist, free, first)
    }

    ghost predicate Running(pd: nat, own: map<nat, Use>, mapped: set<nat>)
      reads this
    {
      Valid() && Space(mem, first, pd, own, mapped) && Apart(own, free)
    }

    lemma RunningPages(pd: nat, own: map<nat, Use>, mapped: set<nat>)
      requires Running(pd, own, mapped)
      ensures |mem| == PAGES && pd < PAGES && Grew(own, free, own, free) && Steady(mem, mem, own, free)
    {
    }

    /** No page free. */
    constructor (pages: seq<Page>, end: nat)
      requires |pages| == PAGES && 0 < end
      ensures Valid() && mem == pages && first == end && free == []
    {
      first, mem, freelist, free := end, pages, 0, [];
    }

    method Kalloc() returns (v: Word)
      requires Valid()
      modifies this`freelist, this`free
      ensures Valid()
      ensures v == 0 <==> old(free) == []
      ensures v == 0 ==> unchanged(this) && free == []
      ensures v != 0 ==> v == Kv(old(free)[0]) && free == old(free)[1..]
      ensures v != 0 ==> first <= old(free)[0] < PAGES && old(free)[0] !in free && Elems(old(free)) == Elems(free) + {old(free)[0]}
    {
      hide Chain, Elems, Link;
      v := freelist;
      ChainHead(mem, freelist, free, first);
      if v != 0 {
        PopChain(mem, freelist, free, first);
        freelist := mem[(v - KERNBASE) / PGSIZE][0];
        free := free[1..];
      }
    }

    /** kfree; ok is false where it panics. */
    method Kfree(v: Word) returns (ok: bool)
      requires Valid() && (v >= KERNBASE ==> (v - KERNBASE) / PGSIZE !in free)
      modifies this
      ensures ok <==> v % PGSIZE == 0 && KERNBASE + first * PGSIZE <= v < KERNBASE + PHYSTOP
      ensures !ok ==> unchanged(this)
      ensures ok ==> var p := (v - KERNBASE) / PGSIZE;
                     && Valid() && free == [p] + old(free) && Elems(free) == Elems(old(free)) + {p}
                     && first <= p < PAGES && |mem| == PAGES && forall b :: 0 <= b < PAGES && b != p ==> mem[b] == old(mem[b])
    {
      hide Chain, Elems, Link, Filled;
      ChainHead(mem, freelist, free, first);
      if v % PGSIZE != 0 || v < KERNBASE + first * PGSIZE || v - KERNBASE >= PHYSTOP {
        return false;
      }
      PageOf(v, first);
      var p := (v - KERNBASE) / PGSIZE;
      var page: Page := Filled(0x0101_0101)[0 := freelist];
      PushChain(mem, freelist, free, first, p, page);
      mem := mem[p := page];
      freelist := v;
      free := [p] + free;
      ok := true;
    }

    /** freerange on the pages from up to but not including to. */
    method FreeRange(from: nat, to: nat) returns (ok: bool)
      requires Valid() && first <= from <= to <= PAGES && Elems(free) !! Range(from, to)
      modifies this
      ensures ok && Valid() && Elems(free) == Elems(old(free)) + Range(from, to)
    {
      hide Chain;
      var p := from;
      ok := true;
      while p < to
        invariant from <= p <= to && ok && Valid() && Elems(free) == Elems(old(free)) + Range(from, p)
      {
        assert p !in Elems(free);
        ok := Kfree(KERNBASE + p * PGSIZE);
        assert Range(from, p + 1) == Range(from, p) + {p};
        p := p + 1;
      }
    }

    /** walkpgdir: make sure there is a table for v, adding one if alloc. */
    method Walkpgdir(pd: nat, v: nat, alloc: bool, ghost own: map<nat, Use>, ghost mapped: set<nat>)
      returns (found: bool, ghost own': map<nat, Use>)
      requires Running(pd, own, mapped) && v < VPAGES
      modifies this
      ensures Running(pd, own', mapped) && Grew(own, old(free), own', free) && Steady(old(mem), mem, own, old(free))
      ensures found ==> HasTable(mem, pd, v)
      ensures !alloc ==> unchanged(this) && own' == own && found == HasTable(mem, pd, v)
      ensures !found ==> unchanged(this) && own' == own && (alloc ==> free == [])
      ensures SamePtes(old(mem), mem, pd)
      ensures Tables(mem, pd) == if found then Tables(old(mem), pd) + {v / ENTRIES} else Tables(old(mem), pd)
      ensures !found ==> v / ENTRIES !in Tables(mem, pd)
    {
      hide Chain, Space, Elems, Pte, AddTable;
      RunningPages(pd, own, mapped);
      own' := own;
      var pde := mem[pd][v / ENTRIES];
      if pde % 2 == 1 {
        assert Tables(mem, pd) == Tables(mem, pd) + {v / ENTRIES};
        return true, own;
      }
      if !alloc {
        return false, own;
      }
      var pgtab := Kalloc();
      if pgtab == 0 {
        return false, own;
      }
      ghost var was := mem;
      var t := (pgtab - KERNBASE) / PGSIZE;
      TableAdded(mem, freelist, first, pd, own, mapped, v / ENTRIES, t, free, old(free));
      mem := AddTable(mem, pd, v / ENTRIES, t);
      own' := own[t := Table(v / ENTRIES)];
      found := true;
    }

    /** One page of mappages. `mid` is memory just before the entry is written. */
    method MapPage(pd: nat, v: nat, w: Word, ghost own: map<nat, Use>, ghost mapped: set<nat>)
      returns (r: Mapping, ghost own': map<nat, Use>, ghost mid: seq<Page>)
      requires Running(pd, own, mapped) && v < VPAGES
      modifies this
      ensures Grew(own, old(free), own', free) && Chain(mid, freelist, free, first) && Apart(own', free)
      ensures Space(mid, first, pd, own', mapped) && Steady(old(mem), mid, own, old(free)) && SamePtes(old(mem), mid, pd)
      ensures r == Done ==> v !in mapped && HasTable(mid, pd, v) && TableOf(mid, pd, v) < PAGES && mem == SetPte(mid, pd, v, w)
      ensures Valid() && Steady(old(mem), mem, own, old(free))
      ensures r == Remap ==> v in mapped
      ensures r == NoTable ==> unchanged(this) && own' == own && free == [] && v / ENTRIES !in Tables(mem, pd)
      ensures r != Done ==> mem == mid
      ensures r != NoTable ==> Tables(mem, pd) == Tables(old(mem), pd) + {v / ENTRIES}
    {
      hide Chain, Space, Elems, Pte, SetPte, Steady, Grew;
      var found;
      found, own' := Walkpgdir(pd, v, true, own, mapped);
      mid := mem;
      if !found {
        return NoTable, own', mem;
      }
      SpaceTableOf(mem, first, pd, own', mapped, v);
      var t := mem[pd][v / ENTRIES] / PGSIZE;
      if mem[t][v % ENTRIES] % 2 == 1 {
        return Remap, own', mem;
      }
      mem := mem[t := mem[t][v % ENTRIES := w]];
      SetPteIs(mid, pd, v, w);
      EntrySet(mid, freelist, free, first, own', t, mem[t]);
      SameTables(mid, mem, pd);
      SteadyThen(own, old(free), own', free, old(mem), mid, mem);
      r := Done;
    }

    /** mappages for a range of the kernel's half: pages a to last, from physical page pa on. */
    method MapKernel(pd: nat, a: nat, last: nat, pa: nat, perm: Word, ghost own: map<nat, Use>, ghost mapped: set<nat>)
      returns (r: Mapping, ghost own': map<nat, Use>)
      requires Running(pd, own, mapped) && USER <= a <= last < VPAGES && pa + (last - a) < VPAGES && PermOk(perm)
      modifies this
      ensures Valid() && Grew(own, old(free), own', free) && Steady(old(mem), mem, own, old(free))
      ensures r == Done ==> Running(pd, own', mapped + Range(a, last + 1)) && Range(a, last + 1) !! mapped
      ensures r == Done ==> Translates(old(mem), mem, pd, a, last + 1, pa, perm)
      ensures r == Done ==> Tables(mem, pd) == Tables(old(mem), pd) + Regions(a, last + 1)
      ensures r == Remap ==> !(Range(a, last + 1) !! mapped)
      ensures r == NoTable ==> free == []
      ensures r == NoTable ==> exists v :: a <= v <= last && NoRoom(mem, first, pd, own', mapped, a, v, Tables(old(mem), pd))
    {
      hide Chain, Space, Elems, Pte, SetPte, Grew, Steady, Translates, Tables, Regions;
      RunningPages(pd, own, mapped);
      TranslatesNone(mem, pd, a, pa, perm);
      RegionsNone(a);
      own' := own;
      ghost var mapped' := mapped;
      var v: nat, p: nat := a, pa;
      while true
        invariant a <= v <= last && p == pa + (v - a) && Running(pd, own', mapped') && mapped' == mapped + Range(a, v)
        invariant Range(a, v) !! mapped && Grew(own, old(free), own', free) && Steady(old(mem), mem, own, old(free))
        invariant Translates(old(mem), mem, pd, a, v, pa, perm)
        invariant Tables(mem, pd) == Tables(old(mem), pd) + Regions(a, v)
        decreases last - v
      {
        ghost var own0, free0, mem0 := own', free, mem;
        ghost var mid;
        r, own', mid := MapPage(pd, v, p * PGSIZE + perm + 1, own', mapped');
        GrewThen(own, old(free), own0, free0, own', free);
        SteadyThen(own, old(free), own0, free0, old(mem), mem0, mem);
        if r != Done {
          assert r == NoTable ==> NoRoom(mem, first, pd, own', mapped, a, v, Tables(old(mem), pd));
          return;
        }
        RegionsNext(a, v);
        KernelEntry(old(mem), mem0, mid, first, pd, own', mapped', a, v, pa, perm);
        mapped' := mapped' + {v};
        RangeNext(a, v);
        v, p := v + 1, p + 1;
        if v == last + 1 {
          break;
        }
      }
      assert mapped' == mapped + Range(a, last + 1);
    }

    /** mappages for one page of user memory, fresh from kalloc: its loop runs once. */
    method MapUser(pd: nat, v: nat, f: nat, ghost own: map<nat, Use>, ghost mapped: set<nat>)
      returns (r: Mapping, ghost own': map<nat, Use>)
      requires Running(pd, own, mapped) && v < USER && v !in mapped
      requires first <= f < PAGES && f !in own && f !in free
      modifies this
      ensures r == Done || r == NoTable
      ensures r == NoTable ==> unchanged(this) && own' == own && free == [] && v / ENTRIES !in Tables(mem, pd)
      ensures r == Done ==> Tables(mem, pd) == Tables(old(mem), pd) + {v / ENTRIES}
      ensures r == Done ==> Running(pd, own', mapped + {v}) && Grew(own, old(free) + [f], own', free)
      ensures r == Done ==> Steady(old(mem), mem, own, old(free)) && f in own' && own'[f] == User(v)
      ensures r == Done ==> |old(mem)| == |mem| == PAGES && Pte(mem, pd, v) == f * PGSIZE + 7
      ensures r == Done ==> forall x :: 0 <= x < VPAGES && x != v ==> Pte(mem, pd, x) == Pte(old(mem), pd, x)
    {
      hide Chain, Space, Elems, Pte, SetPte, Steady;
      RunningPages(pd, own, mapped);
      ghost var mid;
      r, own', mid := MapPage(pd, v, f * PGSIZE + 7, own, mapped);
      if r == Done {
        FreshStays(own, old(free), own', free, f);
        SpaceSetUser(mid, first, pd, own', mapped, v, f);
        UserAdded(own, old(free), own', free, f, v);
        forall x | 0 <= x < VPAGES ensures Pte(mem, pd, x) == if x == v then f * PGSIZE + 7 else Pte(old(mem), pd, x) {
          SetPteAt(mid, first, pd, own', mapped, v, f * PGSIZE + 7, x);
        }
        own' := own'[f := User(v)];
      }
    }

    /** setupkvm, with the kernel's data at physical page data. ok is false where there is
        no memory for the directory or a table. */
    method Setupkvm(data: nat) returns (ok: bool, pd: nat, ghost own: map<nat, Use>)
      requires Valid() && EXTMEM / PGSIZE < data < PAGES
      modifies this
      ensures ok <==> |old(free)| >= 65
      ensures ok ==> Running(pd, own, KernelPages()) && own.Keys + Elems(free) == Elems(old(free))
      ensures ok ==> KernelOnly(mem, pd, data) && Tables(mem, pd) == KernelTables()
      ensures !ok ==> Valid() && free == []
      ensures |mem| == |old(mem)| == PAGES && forall b :: 0 <= b < PAGES && b !in old(free) ==> mem[b] == old(mem)[b]
    {
      hide Chain, Space, Elems, Pte, Steady, Grew, Translates, KernelSees, KernelOnly, Range, Tables, KmapTables, KernelTables, Regions;
      hide Apart, Covered;
      ok, pd, own := false, 0, map[];
      ChainHead(mem, freelist, free, first);
      ChainPages(mem, freelist, free, first);
      var v := Kalloc();
      if v == 0 {
        return;
      }
      pd := (v - KERNBASE) / PGSIZE;
      ghost var free1, mem1 := free, mem[pd := Filled(0)];
      NewDir(mem, freelist, free, first, pd);
      mem := mem[pd := Filled(0)];
      own := map[pd := Dir];
      NewApart(pd, free);
      CoveredNone(data);
      SeenNone(mem, pd, data);
      RunningPages(pd, own, {});
      var k := 0;
      while k < 4
        invariant 0 <= k <= 4 && Running(pd, own, Covered(data, k)) && KernelSees(mem, pd, data, Covered(data, k))
        invariant Grew(map[pd := Dir], free1, own, free) && Steady(mem1, mem, map[pd := Dir], free1)
        invariant Tables(mem, pd) == KmapTables(data, k)
      {
        ghost var own0, free0, mem0 := own, free, mem;
        var e := KmapAt(data, k);
        CoveredNext(data, k);
        KmapTablesNext(data, k);
        var r;
        r, own := MapKernel(pd, e.a, e.last, e.pa, e.perm, own, Covered(data, k));
        GrewThen(map[pd := Dir], free1, own0, free0, own, free);
        SteadyThen(map[pd := Dir], free1, own0, free0, mem1, mem0, mem);
        if r != Done {
          SteadySizes(mem1, mem, map[pd := Dir], free1);
          DirSettled(old(mem), mem, pd, old(free), free1, own, free);
          TooFew(mem, first, pd, own, data, k, old(free));
          return;
        }
        SeenNext(mem0, mem, pd, data, k);
        k := k + 1;
      }
      RunningPages(pd, own, Covered(data, 4));
      DirSettled(old(mem), mem, pd, old(free), free1, own, free);
      JustEnough(mem, freelist, first, pd, own, data, old(free), free);
      SeenAll(mem, pd, data);
      ok := true;
    }

    /** The part of deallocuvm's loop for a page that is present. */
    method FreeUser(pd: nat, v: nat, ghost own: map<nat, Use>, ghost mapped: set<nat>) returns (ghost own': map<nat, Use>)
      requires Running(pd, own, mapped) && v < USER && v in mapped
      modifies this
      ensures Running(pd, own', mapped - {v}) && Shrunk(own, old(free), own', free) && |old(mem)| == |mem| == PAGES
      ensures pd < PAGES && mem[pd] == old(mem)[pd] && Steady(old(mem), mem, own', free)
      ensures PtesKept(old(mem), mem, pd, mapped - {v})
    {
      hide Chain, Space, Elems, Pte, SetPte, Steady, Shrunk, PtesKept;
      RunningPages(pd, own, mapped);
      SpaceTableOf(mem, first, pd, own, mapped, v);
      SpaceClear(mem, first, pd, own, mapped, v);
      ghost var free0, mem0 := free, mem;
      var t := mem[pd][v / ENTRIES] / PGSIZE;
      var f := mem[t][v % ENTRIES] / PGSIZE;
      var ok := Kfree(KERNBASE + f * PGSIZE);
      assert ok;
      PageFreed(mem0, mem, freelist, first, pd, own, mapped, v, free0);
      SetPteIs(mem, pd, v, 0);
      mem := mem[t := mem[t][v % ENTRIES := 0]];
      own' := own - {f};
    }

    /** deallocuvm. It frees the mapped pages its loop comes past. */
    method Deallocuvm(pd: nat, oldsz: Word, newsz: Word, ghost own: map<nat, Use>, ghost mapped: set<nat>)
      returns (r: Word, ghost own': map<nat, Use>, ghost mapped': set<nat>)
      requires Running(pd, own, mapped) && oldsz <= KERNBASE
      modifies this
      ensures r == if newsz < oldsz then newsz else oldsz
      ensures |old(mem)| == PAGES && pd < PAGES && Running(pd, own', mapped') && Shrunk(own, old(free), own', free)
      ensures mapped' == if newsz < oldsz then mapped - Swept(old(mem)[pd], Up(newsz), Up(oldsz)) else mapped
      ensures Steady(old(mem), mem, own', free) && PtesKept(old(mem), mem, pd, mapped') && Tables(mem, pd) == Tables(old(mem), pd)
    {
      hide Chain, Space, Elems, Pte, SetPte, Steady, Shrunk, PtesKept, Tables;
      RunningPages(pd, own, mapped);
      ShrunkNone(mem, pd, own, free, mapped);
      own', mapped' := own, mapped;
      if newsz >= oldsz {
        return oldsz, own', mapped';
      }
      UpLess(newsz, oldsz);
      ghost var done: set<nat> := {};
      var a := Up(newsz);
      while a * PGSIZE < oldsz
        invariant Running(pd, own', mapped') && mapped' == mapped - done && |old(mem)| == |mem| == PAGES
        invariant mem[pd] == old(mem)[pd] && Swept(mem[pd], Up(newsz), Up(oldsz)) == done + Swept(mem[pd], a, Up(oldsz))
        invariant Shrunk(own, old(free), own', free) && Steady(old(mem), mem, own', free)
        invariant PtesKept(old(mem), mem, pd, mapped')
      {
        UpLess(a * PGSIZE, oldsz);
        ghost var same: map<nat, Use>;
        var pte;
        pte, same := Walkpgdir(pd, a, false, own', mapped');
        SpaceTableOf(mem, first, pd, own', mapped', a);
        if !pte {
          a := a + (ENTRIES - 1);
        } else {
          var t := mem[pd][a / ENTRIES] / PGSIZE;
          if mem[t][a % ENTRIES] % 2 == 1 {
            ghost var own0, free0, mem0 := own', free, mem;
            own' := FreeUser(pd, a, own', mapped');
            assert mapped' - {a} + {a} == mapped';
            mapped' := mapped' - {a};
            ShrunkThen(own, old(free), own0, free0, own', free, old(mem), mem0, mem);
            PtesThen(old(mem), mem0, mem, pd, mapped', a);
          }
          done := done + {a};
        }
        a := a + 1;
      }
      SameTables(old(mem), mem, pd);
      r := newsz;
    }

    /** allocuvm for a process of size oldsz. It does not look at what mappages returns:
        where there is no memory for a page table the new page is gone, and if that was the
        last page the process gets its new size with a hole at the end. */
    method Allocuvm(pd: nat, oldsz: Word, newsz: Word, ghost own: map<nat, Use>, ghost mapped: set<nat>)
      returns (r: Word, ghost gone: set<nat>, ghost own': map<nat, Use>, ghost mapped': set<nat>)
      requires Running(pd, own, mapped) && Vacant(mapped, Up(oldsz)) && oldsz <= KERNBASE
      modifies this
      ensures Running(pd, own', mapped') && Balanced(own, old(free), own', free, gone) && |gone| <= 1
      ensures newsz >= KERNBASE || newsz < oldsz ==> unchanged(this) && own' == own && mapped' == mapped && gone == {}
      ensures newsz >= KERNBASE || newsz < oldsz ==> r == if newsz >= KERNBASE then 0 else oldsz
      ensures oldsz <= newsz < KERNBASE ==>
                Allocated(|old(free)|, Tables(old(mem), pd), mapped, Up(oldsz), Up(newsz), newsz, r, gone, mapped')
      ensures Tables(old(mem), pd) <= Tables(mem, pd) <= Tables(old(mem), pd) + Regions(Up(oldsz), Up(newsz))
      ensures PtesKept(old(mem), mem, pd, mapped) && Zeroed(mem, pd, mapped' - mapped) && UsersKept(old(mem), mem, own)
      ensures r != 0 && gone != {} ==> free == []
    {
      hide Chain, Space, Elems, Pte, Steady, Grew, PtesKept, Zeroed, UsersKept, HoldsPage, Tables, Regions, Cost, Balanced;
      hide Allocated, Vacant, Range, Apart, Shrunk, Swept, Distinct, Up, Growing, Filled, Frame, Here, Kv, Serves, TableOwned, UserOwned;
      own', mapped', gone := own, mapped, {};
      RunningPages(pd, own, mapped);
      NothingYet(mem, pd, own, free, mapped);
      NothingGone(own, free);
      ChainPages(mem, freelist, free, first);
      if newsz >= KERNBASE {
        return 0, {}, own', mapped';
      }
      if newsz < oldsz {
        return oldsz, {}, own', mapped';
      }
      ghost var s := Start(first, pd, Up(oldsz), mem, own, free, mapped);
      UpNext(oldsz, newsz);
      GrowStart(s);
      var a: nat := Up(oldsz);
      ghost var top: nat, keep := Up(oldsz), free;
      while a * PGSIZE < newsz
        invariant Running(pd, own', mapped') && Up(oldsz) <= a <= Up(newsz)
        invariant Growing(s, mem, own', free, mapped', a, top, keep, gone)
        decreases Up(newsz) - a
      {
        PageBefore(a, newsz);
        var got;
        got, own', mapped', top, keep, gone := GrowOne(pd, s, a, own', mapped', top, keep, gone);
        if !got {
          own', mapped' := GiveUp(pd, oldsz, newsz, s, a, own', mapped', top, keep, gone);
          return 0, gone, own', mapped';
        }
        a := a + 1;
      }
      r := newsz;
      UpLast(a, newsz);
      GrowEnd(s, mem, own', free, mapped', a, top, keep, gone, newsz);
    }

    /** One round of the loop of allocuvm. */
    method GrowOne(pd: nat, ghost s: Start, a: nat, ghost own: map<nat, Use>, ghost now: set<nat>, ghost top: nat, ghost keep: seq<nat>,
                   ghost gone: set<nat>)
      returns (got: bool, ghost own': map<nat, Use>, ghost now': set<nat>, ghost top': nat, ghost keep': seq<nat>, ghost gone': set<nat>)
      requires Running(pd, own, now) && pd == s.pd && first == s.first && a < USER && Growing(s, mem, own, free, now, a, top, keep, gone)
      modifies this
      ensures Running(pd, own', now') && (!got ==> free == [])
      ensures Growing(s, mem, own', free, now', if got then a + 1 else a, top', keep', gone')
    {
      hide Chain, Space, Elems, Pte, Steady, Grew, PtesKept, Zeroed, UsersKept, HoldsPage, Tables, Regions, Cost, Balanced;
      hide Allocated, Vacant, Range, Apart, Shrunk, Swept, Distinct, Up, Growing, Filled, SamePtes;
      GrowFacts(s, mem, own, free, now, a, top, keep, gone);
      now', top', keep', gone' := now, top, keep, gone;
      var lost;
      got, lost, own' := AllocOne(pd, a, Filled(0), own, now);
      if lost {
        GrowLost(s, old(mem), own, old(free), now, a, top, keep, mem, free);
        gone' := Elems(keep);
      } else if got {
        ChainPages(mem, freelist, free, first);
        GrowNext(s, old(mem), own, old(free), now, a, top, keep, mem, own', free);
        now', top', keep' := now + {a}, a + 1, free;
      }
    }

    /** allocuvm where kalloc fails: it takes back the pages it mapped. */
    method GiveUp(pd: nat, oldsz: Word, newsz: Word, ghost s: Start, a: nat, ghost own: map<nat, Use>, ghost now: set<nat>,
                  ghost top: nat, ghost keep: seq<nat>, ghost gone: set<nat>)
      returns (ghost own': map<nat, Use>, ghost mapped': set<nat>)
      requires Running(pd, own, now) && pd == s.pd && first == s.first && s.n == Up(oldsz) && oldsz < newsz < KERNBASE && a < Up(newsz)
      requires Growing(s, mem, own, free, now, a, top, keep, gone) && free == []
      modifies this
      ensures Running(pd, own', mapped') && Balanced(s.own, s.free, own', free, gone) && mapped' == s.mapped
      ensures Allocated(|s.free|, Tables(s.mem, pd), s.mapped, Up(oldsz), Up(newsz), newsz, 0, gone, mapped') && |gone| <= 1
      ensures Tables(s.mem, pd) <= Tables(mem, pd) <= Tables(s.mem, pd) + Regions(Up(oldsz), Up(newsz))
      ensures PtesKept(s.mem, mem, pd, s.mapped) && Zeroed(mem, pd, mapped' - s.mapped) && UsersKept(s.mem, mem, s.own)
    {
      hide Chain, Space, Elems, Pte, Steady, Grew, PtesKept, Zeroed, UsersKept, Tables, Regions, Cost, Balanced, Allocated;
      hide Vacant, Range, Apart, Shrunk, Swept, Distinct, Up, Growing;
      GrowFacts(s, mem, own, free, now, a, top, keep, gone);
      ghost var n, mem1 := Up(oldsz), mem;
      UpNext(oldsz, newsz);
      Spent(s.mem, mem, first, pd, s.own, s.free, own, keep, s.mapped, Tables(s.mem, pd), n, top);
      var r;
      r, own', mapped' := Deallocuvm(pd, newsz, oldsz, own, now);
      Undone(s.mem, mem1, mem, first, pd, s.own, s.free, own, [], own', free, s.mapped, now, mapped', oldsz, newsz, top);
      GoneBack(s.own, s.free, own, keep, [], own', free, gone);
      Refused(|s.free|, Tables(s.mem, pd), s.mapped, n, top, Up(newsz), newsz, gone, |keep|);
      RegionsWithin(n, top, Up(newsz));
    }

    /** freevm: every page of the address space goes to the free list, once. */
    method Freevm(pd: nat, ghost own: map<nat, Use>, ghost mapped: set<nat>)
      requires Running(pd, own, mapped)
      modifies this
      ensures Valid() && Elems(free) == Elems(old(free)) + own.Keys && |free| == |old(free)| + |own|
      ensures |old(mem)| == |mem| == PAGES
      ensures forall b :: 0 <= b < PAGES && b !in own && b !in old(free) ==> mem[b] == old(mem)[b]
    {
      hide Chain, Space, Elems, Pte, Steady, Shrunk, PtesKept, Swept, Remaining, Returned;
      RunningPages(pd, own, mapped);
      ChainPages(mem, freelist, free, first);
      var r;
      ghost var own1, mapped1;
      r, own1, mapped1 := Deallocuvm(pd, KERNBASE, 0, own, mapped);
      RunningPages(pd, own1, mapped1);
      ghost var free1, mem1 := free, mem;
      AllTables(old(mem), mem, first, pd, own, mapped, own1, mapped1);
      FreeTables(pd, own1);
      ReturnedAll(old(mem), mem1, freelist, mem, first, own, old(free), own1, free1, free, pd);
    }

    /** The loop of freevm over the directory, and the directory itself. */
    method FreeTables(pd: nat, ghost own: map<nat, Use>)
      requires Valid() && |mem| == PAGES && pd < PAGES && Apart(own, free) && Remaining(mem[pd], first, pd, own, own.Keys, 0)
      modifies this
      ensures Valid() && |mem| == PAGES && pd in own && Returned(old(free), own.Keys, free, {})
      ensures forall b :: 0 <= b < PAGES && b !in own ==> mem[b] == old(mem)[b]
    {
      hide Chain, Elems, Remaining, Returned, Apart, Frame, Here;
      ReturnedNone(own, free);
      var i := 0;
      ghost var rest := own.Keys;
      while i < ENTRIES
        invariant 0 <= i <= ENTRIES && Valid() && |mem| == PAGES && mem[pd] == old(mem)[pd]
        invariant Remaining(mem[pd], first, pd, own, rest, i) && Returned(old(free), own.Keys, free, rest)
        invariant forall b :: 0 <= b < PAGES && b !in own ==> mem[b] == old(mem)[b]
      {
        RemainingNext(mem[pd], first, pd, own, rest, i);
        if Here(mem[pd][i]) {
          var f := Frame(mem[pd][i]);
          ReturnedNext(old(free), own.Keys, free, rest, f);
          FreeOne(f);
          rest := rest - {f};
        }
        i := i + 1;
      }
      RemainingDir(mem[pd], first, pd, own, rest);
      ReturnedNext(old(free), own.Keys, free, rest, pd);
      assert rest - {pd} == {};
      FreeOne(pd);
    }

    method FreeOne(p: nat)
      requires Valid() && first <= p < PAGES && p !in free
      modifies this
      ensures Valid() && free == [p] + old(free) && |old(mem)| == |mem| == PAGES
      ensures forall b :: 0 <= b < PAGES && b != p ==> mem[b] == old(mem)[b]
    {
      hide Chain, Elems;
      ChainHead(mem, freelist, free, first);
      var ok := Kfree(Kv(p));
      assert ok;
    }

    /** growproc, for a process of size sz. It takes 0 for a failure, also from deallocuvm:
        a process that gives back all its memory is left with its size. One that gives back
        more than it has keeps all, for its size wraps. */
    method Growproc(pd: nat, sz: Word, n: int, ghost own: map<nat, Use>, ghost mapped: set<nat>)
      returns (ok: bool, sz': Word, ghost gone: set<nat>, ghost own': map<nat, Use>, ghost mapped': set<nat>)
      requires Running(pd, own, mapped) && Vacant(mapped, Up(sz)) && sz <= KERNBASE && -0x8000_0000 <= n < 0x8000_0000
      modifies this
      ensures Running(pd, own', mapped') && Balanced(own, old(free), own', free, gone) && |gone| <= 1
      ensures ok <==> Grown(|old(free)|, Tables(old(mem), pd), sz, n) && !AllBack(sz, n) && !(n < 0 && sz == 0)
      ensures sz' == if ok && sz + n >= 0 then sz + n else sz
      ensures Prefix(mapped, Up(sz)) ==>
                (Prefix(mapped', Up(sz')) <==> !AllBack(sz, n) && !HoleAt(|old(free)|, Tables(old(mem), pd), sz, n))
      ensures Prefix(mapped, Up(sz)) && AllBack(sz, n) ==> Prefix(mapped', 0)
    {
      hide Chain, Space, Elems, Swept, Shrunk, Steady, PtesKept, Zeroed, UsersKept, Prefix, Apart, Tables, Distinct, Up;
      hide Balanced, Allocated, Regions, Cost, Moved, Hole, Vacant;
      own', mapped', gone, sz', ok := own, mapped, {}, sz, true;
      NothingGone(own, free);
      RunningPages(pd, own, mapped);
      if n > 0 {
        var r;
        ghost var t := Tables(mem, pd);
        r, gone, own', mapped' := Allocuvm(pd, sz, sz + n, own, mapped);
        GrownBy(|old(free)|, t, mapped, sz, n, r, gone, mapped');
        ok := r != 0;
        if ok {
          sz' := r;
        }
      } else if n < 0 {
        var m: Word, r := if sz + n >= 0 then sz + n else sz + n + 0x1_0000_0000, 0;
        r, own', mapped' := Deallocuvm(pd, sz, m, own, mapped);
        ShrunkBalanced(own, old(free), own', free);
        if m < sz && Prefix(mapped, Up(sz)) {
          PrefixShrinks(old(mem), first, pd, own, mapped, Up(sz), sz, m);
          PrefixOnly(mapped', m, sz);
        }
        ok := r != 0;
        if ok {
          sz' := r;
        }
      }
    }

    /** The life of a process's memory: setupkvm, allocuvm or deallocuvm for one size after
        the other, and freevm. `log` has the state after setupkvm and after each call. In
        the end all pages but those allocuvm lost are free again. */
    method Lifecycle(data: nat, sizes: seq<Word>, ghost most: nat)
      returns (ok: bool, ghost pd: nat, ghost log: seq<Snap>, ghost gone: set<nat>)
      requires Valid() && EXTMEM / PGSIZE < data < PAGES
      modifies this
      ensures Valid() && (ok <==> |old(free)| >= 65) && (!ok ==> free == [])
      ensures ok ==> |log| == |sizes| + 1 && log[0].sz == 0 && !log[0].hole && log[0].mapped == KernelPages() && log[0].gone == {}
      ensures ok ==> forall k :: 0 <= k <= |sizes| ==> Sound(first, pd, Elems(old(free)), log[k])
      ensures ok ==> forall k :: 0 <= k < |sizes| ==> Follows(pd, log[k], sizes[k], log[k + 1])
      ensures ok ==> gone == log[|sizes|].gone && Elems(free) + gone == Elems(old(free)) && |free| + |gone| == |old(free)|
      ensures Plenty(sizes, most, |old(free)|) ==> ok && gone == {}
      ensures Plenty(sizes, most, |old(free)|) ==> forall k :: 0 <= k < |sizes| && sizes[k] < KERNBASE ==> log[k + 1].sz == sizes[k]
      ensures Plenty(sizes, most, |old(free)|) ==> forall k :: 0 <= k <= |sizes| ==> !log[k].hole
    {
      hide Chain, Space, Elems, Swept, KernelOnly, Shrunk, Steady, PtesKept, Zeroed, UsersKept, Prefix, KernelPages, Apart;
      hide Tables, KernelTables, Sound, Follows, Plenty, Distinct, Up, Balanced, Allocated, Regions, MostTables, Pte, InPlenty;
      hide Accounted, History, Frame, Here, Filled, Kv, Serves, TableOwned, UserOwned, Range, Cost, HoldsPage, Moved, Grew;
      ghost var own := map[];
      ChainPages(mem, freelist, free, first);
      log, gone := [], {};
      var dir;
      ok, dir, own := Setupkvm(data);
      pd := dir;
      PlentyStart(sizes, most, |old(free)|, mem, pd);
      if !ok {
        return;
      }
      var sz: Word, k := 0, 0;
      ChainPages(mem, freelist, free, first);
      ghost var now := Snap(0, mem, own, KernelPages(), free, {}, false);
      log := [now];
      KernelPrefix();
      FirstSound(first, pd, old(free), now);
      HistoryFirst(first, pd, Elems(old(free)), sizes, log, Plenty(sizes, most, |old(free)|));
      while k < |sizes|
        invariant 0 <= k <= |sizes| && Valid() && |log| == k + 1 && log[k] == now && now.gone == log[k].gone
        invariant now == Snap(sz, mem, now.own, now.mapped, free, now.gone, now.hole)
        invariant log[0].sz == 0 && !log[0].hole && log[0].mapped == KernelPages() && log[0].gone == {}
        invariant History(first, pd, Elems(old(free)), sizes, log, Plenty(sizes, most, |old(free)|))
        invariant Plenty(sizes, most, |old(free)|) ==> now.gone == {} && !now.hole && InPlenty(mem, pd, sz, most)
      {
        ghost var was := now;
        HistoryLast(first, pd, Elems(old(free)), sizes, log, Plenty(sizes, most, |old(free)|));
        PlentyGrow(sizes, most, old(free), first, pd, was, k);
        sz, now := Resize(dir, sz, sizes[k], was, Elems(old(free)));
        PlentyKept(sizes, most, |old(free)|, was, pd, k, now);
        HistoryNext(first, pd, Elems(old(free)), sizes, log, Plenty(sizes, most, |old(free)|), now);
        log := log + [now];
        k := k + 1;
      }
      HistoryLast(first, pd, Elems(old(free)), sizes, log, Plenty(sizes, most, |old(free)|));
      SoundParts(first, pd, Elems(old(free)), now);
      gone := now.gone;
      AllAccounted(old(free), now.own, free, gone);
      ghost var left := free;
      Freevm(dir, now.own, now.mapped);
      AccountedBack(Elems(old(free)), now.own, left, free, gone);
      HistoryAll(first, pd, Elems(old(free)), sizes, log, Plenty(sizes, most, |old(free)|));
    }

    /** One call of allocuvm or deallocuvm in the life of a process. */
    method Resize(pd: nat, sz: Word, n: Word, ghost s: Snap, ghost all: set<nat>) returns (sz': Word, ghost s': Snap)
      requires Valid() && s == Snap(sz, mem, s.own, s.mapped, free, s.gone, s.hole) && Sound(first, pd, all, s)
      modifies this
      ensures Valid() && s' == Snap(sz', mem, s'.own, s'.mapped, free, s'.gone, s'.hole)
      ensures Sound(first, pd, all, s') && Follows(pd, s, n, s')
      ensures Tables(mem, pd) <= Tables(s.mem, pd) + Regions(Up(sz), Up(n)) && (n >= KERNBASE && n > sz ==> mem == s.mem)
    {
      hide Chain, Space, Elems, Swept, Shrunk, Steady, PtesKept, Zeroed, UsersKept, Prefix, Apart, Tables, Sound, Follows;
      hide Distinct, Up, Balanced, Allocated, Regions, Pte, Accounted, HoldsPage, Cost, Range, Moved, Hole, Vacant, HoleNow;
      SoundParts(first, pd, all, s);
      HaveVacant(s);
      ghost var own, mapped, lost;
      var r;
      if n > sz {
        r, lost, own, mapped := Allocuvm(pd, sz, n, s.own, s.mapped);
        sz' := if r != 0 then r else sz;
        s' := Snap(sz', mem, own, mapped, free, s.gone + lost, s.hole || (r != 0 && lost != {}));
        ChainPages(mem, freelist, free, first);
        AccountedGrown(all, s, lost, s');
        GrownSound(first, pd, all, s, n, r, lost, s');
      } else {
        r, own, mapped := Deallocuvm(pd, sz, n, s.own, s.mapped);
        sz', s' := n, Snap(n, mem, own, mapped, free, s.gone, HoleNow(s, n));
        ChainPages(mem, freelist, free, first);
        ShrunkSound(first, pd, all, s, n, s');
      }
    }

    /** copyuvm: a new address space with the same user memory in pages of its own. It panics
        where it comes to a page that is not there. Where memory runs out what it took is
        free again, but for one page where mappages failed, and for all where setupkvm did. */
    method Copyuvm(pd: nat, sz: Word, data: nat, ghost own: map<nat, Use>, ghost mapped: set<nat>)
      returns (r: Copying, d: nat, ghost gone: set<nat>, ghost ownd: map<nat, Use>)
      requires Running(pd, own, mapped) && sz <= KERNBASE && EXTMEM / PGSIZE < data < PAGES
      modifies this
      ensures r == CopyOutcome(|old(free)|, FirstHole(mapped, Up(sz)), Up(sz))
      ensures Running(pd, own, mapped) && Untouched(old(mem), mem, own)
      ensures r == Whole ==> Running(d, ownd, KernelPages() + Range(0, Up(sz))) && Copied(mem, pd, d, Up(sz))
      ensures r == Whole ==> TakenFrom(ownd, free, old(free)) && Beside(own, ownd)
      ensures r == NoMemory ==> Elems(free) + gone == Elems(old(free)) && gone !! Elems(free)
      ensures r == NoMemory ==> |gone| == CopyLoss(|old(free)|, FirstHole(mapped, Up(sz)))
    {
      hide Chain, Space, Elems, Pte, Steady, Grew, PtesKept, HoldsPage, KernelOnly, KernelPages, Copied, Untouched, Range;
      hide TakenFrom, Beside, Apart, UpTo, Tables, Regions, KernelTables, FirstHole, CopyLoss, CopyCost, Distinct;
      SpaceMapped(mem, first, pd, own, mapped);
      ChainPages(mem, freelist, free, first);
      ghost var m := FirstHole(mapped, Up(sz));
      CopyCostGrows(0, m);
      gone := Elems(free);
      var ok;
      ok, d, ownd := Setupkvm(data);
      if !ok {
        ParentAlone(old(mem), mem, first, pd, own, mapped, old(free));
        NoElems(old(free));
        AllLost(old(free), m);
        return NoMemory, d, gone, ownd;
      }
      ParentStays(old(mem), mem, first, pd, own, mapped, old(free), ownd, free);
      CopiedNone(mem, pd, d);
      RangeNone();
      RegionsNone(0);
      var i := 0;
      while i * PGSIZE < sz
        invariant i <= m <= Up(sz) && Running(d, ownd, KernelPages() + Range(0, i)) && Copied(mem, pd, d, i)
        invariant Running(pd, own, mapped) && Untouched(old(mem), mem, own)
        invariant TakenFrom(ownd, free, old(free)) && Beside(own, ownd)
        invariant Tables(mem, d) == KernelTables() + Regions(0, i)
        decreases sz - i * PGSIZE
      {
        UpLess(i * PGSIZE, sz);
        CopySpent(mem, freelist, first, d, ownd, free, old(free), i);
        CopyThere(mem, first, pd, own, mapped, i, Up(sz));
        if !Here(Pte(mem, pd, i)) {
          return NotThere, d, gone, ownd;
        }
        ghost var free0, mem0, ownd0, now := free, mem, ownd, KernelPages() + Range(0, i);
        CopyCostGrows(i + 1, m);
        var got, lost;
        got, lost, ownd := CopyOne(pd, d, i, own, mapped, ownd0, now);
        if !got || lost {
          ghost var mem1, free1 := mem, free;
          UntouchedThen(old(mem), mem0, mem, own);
          Freevm(d, ownd0, now);
          ParentKept(old(mem), mem1, mem, freelist, first, pd, own, mapped, free1, ownd0, free);
          gone := if lost then Elems(free0) else {};
          TakenBack(ownd0, free0, free1, free, old(free), gone, lost);
          CopyFails(|old(free)|, m, i, lost);
          return NoMemory, d, gone, ownd0;
        }
        UntouchedThen(old(mem), mem0, mem, own);
        TakenThen(ownd0, free0, ownd, free, old(free));
        RangeNext(0, i);
        RegionsNext(0, i);
        assert now + {i} == KernelPages() + Range(0, i + 1);
        i := i + 1;
      }
      UpLast(i, sz);
      CopySpent(mem, freelist, first, d, ownd, free, old(free), i);
      r := Whole;
    }

    /** One round of copyuvm's loop. */
    method CopyOne(pd: nat, d: nat, i: nat, ghost own: map<nat, Use>, ghost mapped: set<nat>, ghost ownd: map<nat, Use>,
                   ghost now: set<nat>) returns (got: bool, lost: bool, ghost ownd': map<nat, Use>)
      requires Running(pd, own, mapped) && Running(d, ownd, now) && Beside(own, ownd) && Copied(mem, pd, d, i)
      requires i < USER && UpTo(mapped, i + 1) && UpTo(now, i) && i !in now
      modifies this
      ensures got <==> old(free) != []
      ensures !got ==> unchanged(this) && !lost
      ensures lost ==> |old(free)| == 1 && free == [] && i / ENTRIES !in Tables(old(mem), d) && Running(d, ownd, now)
      ensures Running(pd, own, mapped) && Untouched(old(mem), mem, own)
      ensures got && !lost ==> Running(d, ownd', now + {i}) && Copied(mem, pd, d, i + 1) && Beside(own, ownd')
      ensures got && !lost ==> ownd'.Keys + Elems(free) == ownd.Keys + Elems(old(free))
      ensures got && !lost ==> Tables(mem, d) == Tables(old(mem), d) + {i / ENTRIES}
    {
      hide Chain, Space, Elems, Pte, Steady, Grew, PtesKept, HoldsPage, Copied, Untouched, Tables;
      MappedHas(mem, first, pd, own, mapped, i);
      var pte;
      ghost var same: map<nat, Use>;
      pte, same := Walkpgdir(pd, i, false, own, mapped);
      assert pte;
      UntouchedNone(mem, own);
      var t := mem[pd][i / ENTRIES] / PGSIZE;
      var pa := mem[t][i % ENTRIES] / PGSIZE;
      got, lost, ownd' := AllocOne(d, i, mem[pa], ownd, now);
      if lost {
        ParentSteady(old(mem), mem, first, pd, own, mapped, old(free), ownd);
      } else if got {
        ParentNext(old(mem), old(mem), mem, first, pd, own, mapped, old(free), ownd, ownd', free, d);
        CopiedNext(old(mem), mem, first, pd, d, own, mapped, ownd, old(free), now, i);
      }
    }

    /** One round of the loops of allocuvm and copyuvm: a new page with these contents at
        a. got is false where kalloc fails, lost is true where mappages does. */
    method AllocOne(pd: nat, a: nat, page: Page, ghost own: map<nat, Use>, ghost mapped: set<nat>)
      returns (got: bool, lost: bool, ghost own': map<nat, Use>)
      requires Running(pd, own, mapped) && a < USER && a !in mapped
      modifies this
      ensures got <==> old(free) != []
      ensures !got ==> unchanged(this) && own' == own && !lost
      ensures lost ==> |old(free)| == 1 && free == [] && a / ENTRIES !in Tables(old(mem), pd)
      ensures lost ==> Running(pd, own, mapped) && own' == own && SamePtes(old(mem), mem, pd)
      ensures |old(mem)| == |mem| == PAGES && Steady(old(mem), mem, own, old(free)) && PtesKept(old(mem), mem, pd, mapped)
      ensures Tables(mem, pd) == if got && !lost then Tables(old(mem), pd) + {a / ENTRIES} else Tables(old(mem), pd)
      ensures got && !lost ==> Running(pd, own', mapped + {a}) && Grew(own, old(free), own', free) && HoldsPage(mem, pd, a, page)
    {
      hide Chain, Space, Elems, Pte, Steady, Grew, PtesKept, HoldsPage, Tables;
      RunningPages(pd, own, mapped);
      NothingYet(mem, pd, own, free, mapped);
      own', lost := own, false;
      var v := Kalloc();
      got := v != 0;
      if !got {
        return;
      }
      var f := (v - KERNBASE) / PGSIZE;
      FreshPage(mem, freelist, old(free), free, first, pd, own, mapped, f, page);
      mem := mem[f := page];
      ghost var mem0, free0 := mem, free;
      FreshSteady(old(mem), pd, own, old(free), mapped, f, page);
      var r;
      r, own' := MapUser(pd, a, f, own, mapped);
      lost := r != Done;
      if !lost {
        PageMapped(old(mem), mem0, mem, first, pd, own, mapped, old(free), free0, own', free, f, a, page);
      }
    }
  }

  /** An entry of kmap, in pages. */
  datatype Kmap = Kmap(a: nat, last: nat, pa: nat, perm: Word)

  /** The table kmap: I/O space, kernel text, kernel data and memory, devices. */
  function KmapAt(data: nat, k: nat): Kmap
    requires 0x100 < data < PAGES && k < 4
  {
    if k == 0 then Kmap(USER, USER + 0xFF, 0, 2)
    else if k == 1 then Kmap(USER + 0x100, USER + data - 1, 0x100, 0)
    else if k == 2 then Kmap(USER + data, USER + PAGES - 1, data, 2)
    else Kmap(0xF_E000, VPAGES - 1, 0xF_E000, 2)
  }

  /** The virtual pages the first k entries map. */
  function Covered(data: nat, k: nat): set<nat> {
    if k == 0 then {}
    else if k == 1 then Range(USER, USER + 0x100)
    else if k == 2 then Range(USER, USER + data)
    else if k == 3 then Range(USER, USER + PAGES)
    else KernelPages()
  }

  lemma CoveredNext(data: nat, k: nat)
    requires 0x100 < data < PAGES && k < 4
    ensures var e := KmapAt(data, k);
            && USER <= e.a <= e.last < VPAGES && e.pa + (e.last - e.a) < VPAGES && PermOk(e.perm)
            && Range(e.a, e.last + 1) !! Covered(data, k) && Covered(data, k) + Range(e.a, e.last + 1) == Covered(data, k + 1)
  {
  }

  /** The entry for virtual page v in the kernel's half, by addresses: physical memory from
      KERNBASE on, where text and read-only data, between EXTMEM and data, cannot be written;
      from DEVSPACE on every address is itself; nothing else is mapped. */
  function KernelPte(data: nat, v: nat): Word
    requires data < PAGES && v < VPAGES
  {
    var va := v * PGSIZE;
    if KERNBASE + EXTMEM <= va < KERNBASE + data * PGSIZE then va - KERNBASE + 1
    else if KERNBASE <= va < KERNBASE + PHYSTOP then va - KERNBASE + 3
    else if DEVSPACE <= va then va + 3
    else 0
  }

  /** These pages have their entries, and no others have any. */
  ghost predicate KernelSees(mem: seq<Page>, pd: nat, data: nat, pages: set<nat>) {
    && |mem| == PAGES && pd < PAGES && data < PAGES
    && forall v :: 0 <= v < VPAGES ==> Pte(mem, pd, v) == if v in pages then KernelPte(data, v) else 0
  }

  /** Every entry of the address space is the kernel's. */
  ghost predicate KernelOnly(mem: seq<Page>, pd: nat, data: nat) {
    && |mem| == PAGES && pd < PAGES && data < PAGES
    && forall v :: 0 <= v < VPAGES ==> Pte(mem, pd, v) == KernelPte(data, v)
  }

  lemma SeenNext(mem: seq<Page>, mem': seq<Page>, pd: nat, data: nat, k: nat)
    requires 0x100 < data < PAGES && k < 4 && KernelSees(mem, pd, data, Covered(data, k))
    requires var e := KmapAt(data, k); Translates(mem, mem', pd, e.a, e.last + 1, e.pa, e.perm)
    ensures KernelSees(mem', pd, data, Covered(data, k + 1))
  {
    hide Pte;
    CoveredNext(data, k);
    forall v | 0 <= v < VPAGES
      ensures Pte(mem', pd, v) == if v in Covered(data, k + 1) then KernelPte(data, v) else 0
    {
      CoveredAt(data, k, v);
    }
  }

  lemma CoveredAt(data: nat, k: nat, v: nat)
    requires 0x100 < data < PAGES && k < 4 && v < VPAGES
    ensures var e := KmapAt(data, k);
            && (v in Covered(data, k + 1) <==> v in Covered(data, k) || e.a <= v <= e.last)
            && (e.a <= v <= e.last ==> Entry(KernelPte(data, v), e.pa + (v - e.a), e.perm))
  {
  }

  lemma SeenNone(mem: seq<Page>, pd: nat, data: nat)
    requires |mem| == PAGES && pd < PAGES && data < PAGES && forall v :: 0 <= v < VPAGES ==> Pte(mem, pd, v) == 0
    ensures KernelSees(mem, pd, data, Covered(data, 0))
  {
    hide Pte;
  }

  lemma SeenAll(mem: seq<Page>, pd: nat, data: nat)
    requires 0x100 < data < PAGES && KernelSees(mem, pd, data, Covered(data, 4))
    ensures KernelOnly(mem, pd, data)
  {
    hide Pte;
    forall v | 0 <= v < VPAGES ensures Pte(mem, pd, v) == KernelPte(data, v) {
      assert v !in Covered(data, 4) ==> KernelPte(data, v) == 0;
    }
  }

  lemma NewDir(mem: seq<Page>, head: Word, free: seq<nat>, first: nat, pd: nat)
    requires Chain(mem, head, free, first) && first <= pd < PAGES && pd !in free
    ensures var mem' := mem[pd := Filled(0)];
            && Chain(mem', head, free, first) && Space(mem', first, pd, map[pd := Dir], {})
            && (forall v :: 0 <= v < VPAGES ==> Pte(mem', pd, v) == 0)
            && Tables(mem', pd) == {}
  {
    hide Chain, Space, Pte;
    ChainPages(mem, head, free, first);
    ChainHead(mem, head, free, first);
    ChainElsewhere(mem, mem[pd := Filled(0)], head, free, first);
    EmptyDir(mem[pd := Filled(0)], first, pd);
  }

  lemma EmptyDir(mem: seq<Page>, first: nat, pd: nat)
    requires |mem| == PAGES && first <= pd < PAGES && mem[pd] == Filled(0)
    ensures Space(mem, first, pd, map[pd := Dir], {}) && forall v :: 0 <= v < VPAGES ==> Pte(mem, pd, v) == 0
  {
    forall v | 0 <= v < VPAGES ensures Pte(mem, pd, v) == 0 {
    }
    hide Pte;
    assert forall i :: 0 <= i < ENTRIES ==> !Here(mem[pd][i]);
  }

  lemma DirSettled(mem: seq<Page>, mem': seq<Page>, pd: nat, free: seq<nat>, free1: seq<nat>, own: map<nat, Use>, free': seq<nat>)
    requires |mem| == |mem'| == PAGES && pd < PAGES && free != [] && pd == free[0] && free1 == free[1..]
    requires Elems(free) == Elems(free1) + {pd}
    requires Grew(map[pd := Dir], free1, own, free') && Steady(mem[pd := Filled(0)], mem', map[pd := Dir], free1)
    ensures own.Keys + Elems(free') == Elems(free)
    ensures forall b :: 0 <= b < PAGES && b !in free ==> mem'[b] == mem[b]
  {
    forall b | 0 <= b < PAGES && b !in free ensures mem'[b] == mem[b] {
      assert pd in free;
      assert b !in free1;
    }
    var d: map<nat, Use> := map[pd := Dir];
    assert d.Keys == {pd};
  }

  /** The kernel's half: all of physical memory at KERNBASE, and the devices. */
  function KernelPages(): set<nat> {
    Range(USER, USER + PAGES) + Range(DEVSPACE / PGSIZE, VPAGES)
  }

  lemma FreshStays(own: map<nat, Use>, free: seq<nat>, own': map<nat, Use>, free': seq<nat>, f: nat)
    requires Grew(own, free, own', free') && f !in own && f !in free
    ensures f !in own' && f !in free'
  {
    assert f !in own.Keys + Elems(free);
    assert f !in own'.Keys + Elems(free');
    assert f !in Elems(free');
  }

  lemma UserAdded(own: map<nat, Use>, free: seq<nat>, own': map<nat, Use>, free': seq<nat>, f: nat, v: nat)
    requires Grew(own, free, own', free') && f !in own' && f !in own && f !in free && Apart(own', free') && f !in free'
    ensures Grew(own, free + [f], own'[f := User(v)], free') && Apart(own'[f := User(v)], free')
  {
    assert Elems(free + [f]) == Elems(free) + {f};
    assert own'[f := User(v)].Keys == own'.Keys + {f};
  }

  /** Pages pass between the free list and the address space, none comes or goes, and
      those that stay keep their use. */
  ghost predicate Moved(own: map<nat, Use>, free: seq<nat>, own': map<nat, Use>, free': seq<nat>) {
    && own'.Keys + Elems(free') == own.Keys + Elems(free)
    && forall b :: b in own && b in own' ==> own'[b] == own[b]
  }

  /** Pages only pass from the free list to the address space. */
  ghost predicate Grew(own: map<nat, Use>, free: seq<nat>, own': map<nat, Use>, free': seq<nat>) {
    Moved(own, free, own', free') && own.Keys <= own'.Keys && Elems(free') <= Elems(free)
  }

  lemma GrewThen(own: map<nat, Use>, free: seq<nat>, own1: map<nat, Use>, free1: seq<nat>, own2: map<nat, Use>, free2: seq<nat>)
    requires Grew(own, free, own1, free1) && Grew(own1, free1, own2, free2)
    ensures Grew(own, free, own2, free2)
  {
    hide Elems;
    forall b | b in own && b in own2 ensures own2[b] == own[b] {
      assert b in own1;
    }
  }

  lemma SteadyThen(own: map<nat, Use>, free: seq<nat>, own1: map<nat, Use>, free1: seq<nat>, mem: seq<Page>, mem1: seq<Page>,
                   mem2: seq<Page>)
    requires Grew(own, free, own1, free1) && Steady(mem, mem1, own, free) && Steady(mem1, mem2, own1, free1)
    ensures Steady(mem, mem2, own, free)
  {
    forall b | 0 <= b < PAGES && b !in free && (b in own ==> own[b].User?) ensures mem2[b] == mem[b] {
      assert b !in Elems(free);
      assert b !in Elems(free1);
      if b in own1 {
        assert b in own.Keys + Elems(free);
      }
    }
  }

  /** Only the directory, the tables and pages that were free have changed. */
  ghost predicate Steady(mem: seq<Page>, mem': seq<Page>, own: map<nat, Use>, free: seq<nat>) {
    && |mem| == |mem'| == PAGES
    && forall b :: 0 <= b < PAGES && b !in free && (b in own ==> own[b].User?) ==> mem'[b] == mem[b]
  }

  ghost predicate SamePtes(mem: seq<Page>, mem': seq<Page>, pd: nat) {
    && |mem| == |mem'| == PAGES && pd < PAGES
    && forall v :: 0 <= v < VPAGES ==> Pte(mem', pd, v) == Pte(mem, pd, v)
  }

  lemma ChainElsewhere(mem: seq<Page>, mem': seq<Page>, head: Word, free: seq<nat>, first: nat)
    requires Chain(mem, head, free, first) && |mem'| == PAGES
    requires forall b :: b in free ==> b < PAGES && mem'[b] == mem[b]
    ensures Chain(mem', head, free, first)
  {
  }

  lemma TableAdded(mem: seq<Page>, head: Word, first: nat, pd: nat, own: map<nat, Use>, mapped: set<nat>, i: nat, t: nat,
                   free: seq<nat>, was: seq<nat>)
    requires Space(mem, first, pd, own, mapped) && Chain(mem, head, free, first) && Apart(own, was)
    requires i < ENTRIES && !Here(mem[pd][i]) && first <= t < PAGES && was != [] && t == was[0] && free == was[1..] && t !in free
    requires Elems(was) == Elems(free) + {t}
    ensures var mem', own' := AddTable(mem, pd, i, t), own[t := Table(i)];
            && Space(mem', first, pd, own', mapped) && Chain(mem', head, free, first) && Apart(own', free)
            && Grew(own, was, own', free) && Steady(mem, mem', own, was) && SamePtes(mem, mem', pd)
            && Here(mem'[pd][i]) && Tables(mem', pd) == Tables(mem, pd) + {i}
  {
    hide Pte, Chain;
    var mem', own' := AddTable(mem, pd, i, t), own[t := Table(i)];
    assert t in was;
    SpaceTable(mem, first, pd, own, mapped, i, t);
    AddTableDir(mem, pd, i, t);
    forall v | 0 <= v < VPAGES ensures Pte(mem', pd, v) == Pte(mem, pd, v) {
      AddTablePte(mem, first, pd, own, mapped, i, t, v);
    }
    ChainPages(mem, head, free, first);
    assert forall b :: b in free ==> b in was;
    ChainElsewhere(mem, mem', head, free, first);
    assert own'.Keys == own.Keys + {t};
  }

  lemma ChainPages(mem: seq<Page>, head: Word, free: seq<nat>, first: nat)
    requires Chain(mem, head, free, first)
    ensures Distinct(free) && forall b :: b in free ==> first <= b < PAGES
  {
  }

  lemma SetPteIs(mem: seq<Page>, pd: nat, v: nat, w: Word)
    requires |mem| == PAGES && pd < PAGES && v < VPAGES && TableOf(mem, pd, v) < PAGES
    ensures var t := TableOf(mem, pd, v); SetPte(mem, pd, v, w) == mem[t := mem[t][v % ENTRIES := w]]
  {
  }

  /** Virtual pages a up to b go to the physical pages from pa on; the others as before. */
  ghost predicate Translates(mem: seq<Page>, mem': seq<Page>, pd: nat, a: nat, b: nat, pa: nat, perm: Word) {
    && |mem| == |mem'| == PAGES && pd < PAGES
    && forall v :: 0 <= v < VPAGES ==>
         if a <= v < b then Entry(Pte(mem', pd, v), pa + (v - a), perm) else Pte(mem', pd, v) == Pte(mem, pd, v)
  }

  /** mappages from a on has come to v, whose region has no table. */
  ghost predicate NoRoom(mem: seq<Page>, first: nat, pd: nat, own: map<nat, Use>, mapped: set<nat>, a: nat, v: nat, tables: set<nat>) {
    && Space(mem, first, pd, own, mapped + Range(a, v))
    && Tables(mem, pd) == tables + Regions(a, v) && v / ENTRIES !in Tables(mem, pd)
  }

  lemma TranslatesNone(mem: seq<Page>, pd: nat, a: nat, pa: nat, perm: Word)
    requires |mem| == PAGES && pd < PAGES
    ensures Translates(mem, mem, pd, a, a, pa, perm)
  {
  }

  /** A page that serves as a table changes. */
  lemma EntrySet(mem: seq<Page>, head: Word, free: seq<nat>, first: nat, own: map<nat, Use>, t: nat, page: Page)
    requires Chain(mem, head, free, first) && Apart(own, free) && t in own && !own[t].User? && t < PAGES
    ensures Chain(mem[t := page], head, free, first) && Steady(mem, mem[t := page], own, free)
  {
    ChainPages(mem, head, free, first);
    ChainElsewhere(mem, mem[t := page], head, free, first);
  }

  lemma KernelEntry(mem: seq<Page>, mem0: seq<Page>, mid: seq<Page>, first: nat, pd: nat, own: map<nat, Use>, mapped: set<nat>,
                    a: nat, v: nat, pa: nat, perm: Word)
    requires Space(mid, first, pd, own, mapped) && USER <= a <= v < VPAGES && HasTable(mid, pd, v)
    requires pa + (v - a) < VPAGES && PermOk(perm)
    requires Translates(mem, mem0, pd, a, v, pa, perm) && SamePtes(mem0, mid, pd)
    ensures TableOf(mid, pd, v) < PAGES
    ensures var mem' := SetPte(mid, pd, v, (pa + (v - a)) * PGSIZE + perm + 1);
            Space(mem', first, pd, own, mapped + {v}) && Translates(mem, mem', pd, a, v + 1, pa, perm)
  {
    hide Pte, SetPte, Space;
    var w := (pa + (v - a)) * PGSIZE + perm + 1;
    SpaceSetKernel(mid, first, pd, own, mapped, v, w);
    var mem' := SetPte(mid, pd, v, w);
    forall x | 0 <= x < VPAGES
      ensures if a <= x < v + 1 then Entry(Pte(mem', pd, x), pa + (x - a), perm) else Pte(mem', pd, x) == Pte(mem, pd, x)
    {
      SetPteAt(mid, first, pd, own, mapped, v, w, x);
    }
  }

  predicate Entry(w: Word, p: nat, perm: Word) {
    w == p * PGSIZE + perm + 1
  }

  // ----- Giving pages back -----

  /** PGROUNDUP, in pages. */
  function Up(sz: nat): nat {
    (sz + PGSIZE - 1) / PGSIZE
  }

  lemma UpLess(a: nat, b: nat)
    requires a < b
    ensures Up(a) <= Up(b) && (b <= KERNBASE ==> Up(b) <= USER) && (a % PGSIZE == 0 ==> a / PGSIZE < Up(b))
    ensures forall p: nat :: p * PGSIZE < b <==> p < Up(b)
  {
  }

  /** The virtual pages deallocuvm looks at, from a on: where there is no table it goes on
      1024 pages further. */
  function Swept(dir: Page, a: nat, end: nat): set<nat>
    requires end <= VPAGES
    decreases end - a
  {
    if a >= end then {}
    else if !Here(dir[a / ENTRIES]) then Swept(dir, a + ENTRIES, end)
    else {a} + Swept(dir, a + 1, end)
  }

  /** Pages only pass from the address space to the free list. */
  ghost predicate Shrunk(own: map<nat, Use>, free: seq<nat>, own': map<nat, Use>, free': seq<nat>) {
    Moved(own, free, own', free') && own'.Keys <= own.Keys && Elems(free) <= Elems(free')
  }

  ghost predicate PtesKept(mem: seq<Page>, mem': seq<Page>, pd: nat, mapped: set<nat>) {
    && |mem| == |mem'| == PAGES && pd < PAGES
    && forall v :: 0 <= v < VPAGES && v in mapped ==> Pte(mem', pd, v) == Pte(mem, pd, v)
  }

  lemma ShrunkNone(mem: seq<Page>, pd: nat, own: map<nat, Use>, free: seq<nat>, mapped: set<nat>)
    requires |mem| == PAGES && pd < PAGES
    ensures Shrunk(own, free, own, free) && PtesKept(mem, mem, pd, mapped)
  {
  }

  lemma ShrunkThen(own: map<nat, Use>, free: seq<nat>, own1: map<nat, Use>, free1: seq<nat>, own2: map<nat, Use>, free2: seq<nat>,
                   mem: seq<Page>, mem1: seq<Page>, mem2: seq<Page>)
    requires Shrunk(own, free, own1, free1) && Shrunk(own1, free1, own2, free2)
    requires Steady(mem, mem1, own1, free1) && Steady(mem1, mem2, own2, free2)
    ensures Shrunk(own, free, own2, free2) && Steady(mem, mem2, own2, free2)
  {
    forall b | 0 <= b < PAGES && b !in free2 && (b in own2 ==> own2[b].User?) ensures mem2[b] == mem[b] {
      assert b !in Elems(free2);
      assert b !in Elems(free1);
      if b in own1 {
        assert b in own2.Keys + Elems(free2);
      }
    }
    forall b | b in own && b in own2 ensures own2[b] == own[b] {
      assert b in own1;
    }
  }

  lemma PtesThen(mem: seq<Page>, mem1: seq<Page>, mem2: seq<Page>, pd: nat, mapped: set<nat>, v: nat)
    requires PtesKept(mem, mem1, pd, mapped + {v}) && PtesKept(mem1, mem2, pd, mapped)
    ensures PtesKept(mem, mem2, pd, mapped)
  {
    hide Pte;
  }

  /** mem1 is mem with the user page of v on the free list; its entry goes too. */
  lemma PageFreed(mem: seq<Page>, mem1: seq<Page>, head: Word, first: nat, pd: nat, own: map<nat, Use>, mapped: set<nat>, v: nat,
                  free: seq<nat>)
    requires Space(mem, first, pd, own, mapped) && Apart(own, free) && v < USER && v in mapped && |mem1| == PAGES
    requires var f := Frame(Pte(mem, pd, v));
             && Chain(mem1, head, [f] + free, first) && forall b :: 0 <= b < PAGES && b != f ==> mem1[b] == mem[b]
    ensures HasTable(mem1, pd, v) && TableOf(mem1, pd, v) < PAGES && TableOf(mem1, pd, v) == TableOf(mem, pd, v)
    ensures var f, mem2 := Frame(Pte(mem, pd, v)), SetPte(mem1, pd, v, 0);
            && f in own && Space(mem2, first, pd, own - {f}, mapped - {v}) && Chain(mem2, head, [f] + free, first)
            && Apart(own - {f}, [f] + free) && Shrunk(own, free, own - {f}, [f] + free) && Steady(mem, mem2, own - {f}, [f] + free)
            && mem2[pd] == mem[pd] && PtesKept(mem, mem2, pd, mapped - {v})
  {
    hide Pte, SetPte, Chain, Shrunk, Space;
    SpacePages(mem, first, pd, own, mapped);
    var f, t := Frame(Pte(mem, pd, v)), TableOf(mem, pd, v);
    SpaceClear(mem, first, pd, own, mapped, v);
    SpaceTableOf(mem, first, pd, own, mapped, v);
    var cleared, mem2 := SetPte(mem, pd, v, 0), SetPte(mem1, pd, v, 0);
    SetPteIs(mem, pd, v, 0);
    SetPteIs(mem1, pd, v, 0);
    SpaceElsewhere(cleared, mem2, first, pd, own - {f}, mapped - {v});
    forall x | 0 <= x < VPAGES && x != v ensures Pte(mem2, pd, x) == Pte(mem, pd, x) {
      SetPteAt(mem, first, pd, own, mapped, v, 0, x);
    }
    GaveBack(own, free, f);
    EntrySet(mem1, head, [f] + free, first, own - {f}, t, mem2[t]);
  }

  lemma SpacePages(mem: seq<Page>, first: nat, pd: nat, own: map<nat, Use>, mapped: set<nat>)
    requires Space(mem, first, pd, own, mapped)
    ensures |mem| == PAGES && pd < PAGES && pd in own && own[pd] == Dir && forall b :: b in own ==> first <= b < PAGES
  {
  }

  lemma GaveBack(own: map<nat, Use>, free: seq<nat>, f: nat)
    requires f in own && Apart(own, free)
    ensures Shrunk(own, free, own - {f}, [f] + free) && Apart(own - {f}, [f] + free)
  {
    PushElems(f, free);
    assert (own - {f}).Keys == own.Keys - {f};
  }

  /** The user pages are those below n. */
  ghost predicate Prefix(mapped: set<nat>, n: nat) {
    n <= USER && forall v :: 0 <= v < USER ==> (v in mapped <==> v < n)
  }

  /** No user page from n on is mapped. */
  ghost predicate Vacant(mapped: set<nat>, n: nat) {
    n <= USER && forall v :: n <= v < USER ==> v !in mapped
  }

  /** Virtual page v holds these words. */
  predicate HoldsPage(mem: seq<Page>, pd: nat, v: nat, page: Page) {
    && |mem| == PAGES && pd < PAGES && v < VPAGES
    && Frame(Pte(mem, pd, v)) < PAGES && mem[Frame(Pte(mem, pd, v))] == page
  }

  /** These virtual pages are all zero. */
  ghost predicate Zeroed(mem: seq<Page>, pd: nat, vs: set<nat>) {
    |mem| == PAGES && pd < PAGES && forall v :: v in vs ==> HoldsPage(mem, pd, v, Filled(0))
  }

  /** The user's memory is as it was. */
  ghost predicate UsersKept(mem: seq<Page>, mem': seq<Page>, own: map<nat, Use>) {
    |mem| == |mem'| == PAGES && forall b :: b in own && own[b].User? && b < PAGES ==> mem'[b] == mem[b]
  }

  lemma PtesWeaken(mem: seq<Page>, mem': seq<Page>, pd: nat, vs: set<nat>, ws: set<nat>)
    requires PtesKept(mem, mem', pd, vs) && ws <= vs
    ensures PtesKept(mem, mem', pd, ws)
  {
  }

  lemma PtesTrans(mem: seq<Page>, mem1: seq<Page>, mem2: seq<Page>, pd: nat, vs: set<nat>)
    requires PtesKept(mem, mem1, pd, vs) && PtesKept(mem1, mem2, pd, vs)
    ensures PtesKept(mem, mem2, pd, vs)
  {
    hide Pte;
  }

  /** A page from kalloc, filled, disturbs nothing. */
  lemma FreshPage(mem: seq<Page>, head: Word, was: seq<nat>, free: seq<nat>, first: nat, pd: nat, own: map<nat, Use>,
                  mapped: set<nat>, f: nat, page: Page)
    requires Chain(mem, head, free, first) && Space(mem, first, pd, own, mapped) && Apart(own, was)
    requires was != [] && f == was[0] && free == was[1..] && f !in free && f < PAGES
    ensures f !in own && Apart(own, free) && |mem| == PAGES
    ensures var mem' := mem[f := page];
            && Chain(mem', head, free, first) && Space(mem', first, pd, own, mapped) && SamePtes(mem, mem', pd)
            && pd < PAGES && f != pd
  {
    hide Chain, Space, Pte;
    assert f in was;
    assert forall b :: b in free ==> b in was;
    SpacePages(mem, first, pd, own, mapped);
    ChainPages(mem, head, free, first);
    var mem' := mem[f := page];
    ChainElsewhere(mem, mem', head, free, first);
    SpaceElsewhere(mem, mem', first, pd, own, mapped);
  }

  lemma FreshSteady(mem: seq<Page>, pd: nat, own: map<nat, Use>, was: seq<nat>, mapped: set<nat>, f: nat, page: Page)
    requires |mem| == PAGES && pd < PAGES && f < PAGES && f != pd && was != [] && f == was[0]
    requires SamePtes(mem, mem[f := page], pd)
    ensures Steady(mem, mem[f := page], own, was) && Tables(mem[f := page], pd) == Tables(mem, pd)
    ensures PtesKept(mem, mem[f := page], pd, mapped)
  {
    hide Pte;
    assert f in was;
    SameTables(mem, mem[f := page], pd);
  }

  /** Kalloc, the contents and the mapping together. */
  lemma PageMapped(mem: seq<Page>, mem0: seq<Page>, mem': seq<Page>, first: nat, pd: nat, own: map<nat, Use>, mapped: set<nat>,
                   was: seq<nat>, free0: seq<nat>, own': map<nat, Use>, free': seq<nat>, f: nat, a: nat, page: Page)
    requires |mem| == |mem'| == PAGES && pd < PAGES && f < PAGES && a < VPAGES && a !in mapped && f !in own && f !in free0
    requires mem0 == mem[f := page] && SamePtes(mem, mem0, pd) && was != [] && f == was[0] && free0 == was[1..]
    requires Elems(was) == Elems(free0) + {f}
    requires Grew(own, free0 + [f], own', free') && Steady(mem0, mem', own, free0) && Pte(mem', pd, a) == f * PGSIZE + 7
    requires forall x :: 0 <= x < VPAGES && x != a ==> Pte(mem', pd, x) == Pte(mem0, pd, x)
    ensures Grew(own, was, own', free') && Steady(mem, mem', own, was) && PtesKept(mem, mem', pd, mapped) && HoldsPage(mem', pd, a, page)
  {
    hide Pte;
    EntryOf(f);
    assert Elems(free0 + [f]) == Elems(free0) + {f};
    forall b | 0 <= b < PAGES && b !in was && (b in own ==> own[b].User?) ensures mem'[b] == mem[b] {
      assert f in was;
      assert b !in free0;
    }
  }

  lemma ZeroedNext(mem: seq<Page>, mem': seq<Page>, first: nat, pd: nat, own: map<nat, Use>, free: seq<nat>, mapped: set<nat>,
                   vs: set<nat>, a: nat)
    requires Space(mem, first, pd, own, mapped) && Apart(own, free) && vs <= mapped && (forall v :: v in vs ==> v < USER)
    requires Zeroed(mem, pd, vs) && Steady(mem, mem', own, free) && PtesKept(mem, mem', pd, mapped) && HoldsPage(mem', pd, a, Filled(0))
    ensures Zeroed(mem', pd, vs + {a})
  {
    hide Pte, Filled;
    forall v | v in vs ensures HoldsPage(mem', pd, v, Filled(0)) {
      assert HoldsPage(mem, pd, v, Filled(0)) && UserOwned(mem, pd, own, v);
    }
  }

  lemma ZeroedStill(mem: seq<Page>, mem': seq<Page>, first: nat, pd: nat, own: map<nat, Use>, free: seq<nat>, mapped: set<nat>,
                    vs: set<nat>)
    requires Space(mem, first, pd, own, mapped) && Apart(own, free) && vs <= mapped && (forall v :: v in vs ==> v < USER)
    requires Zeroed(mem, pd, vs) && Steady(mem, mem', own, free) && PtesKept(mem, mem', pd, mapped)
    ensures Zeroed(mem', pd, vs)
  {
    hide Pte, Filled;
    forall v | v in vs ensures HoldsPage(mem', pd, v, Filled(0)) {
      assert HoldsPage(mem, pd, v, Filled(0)) && UserOwned(mem, pd, own, v);
    }
  }

  lemma Settled(mem: seq<Page>, mem': seq<Page>, own: map<nat, Use>, free: seq<nat>, own': map<nat, Use>, free': seq<nat>)
    requires Grew(own, free, own', free') && Steady(mem, mem', own, free) && Apart(own, free)
    ensures Moved(own, free, own', free') && UsersKept(mem, mem', own)
  {
  }

  // ----- What deallocuvm comes past -----

  /** The first region from r on that has a table. */
  function FirstTable(dir: Page, r: nat): nat
    decreases ENTRIES - r
  {
    if r < ENTRIES && !Here(dir[r]) then FirstTable(dir, r + 1) else r
  }

  /** v lies in the first region with a table, after one without, at a smaller offset than
      the sweep started with. */
  predicate Missed(dir: Page, a: nat, v: nat)
    requires a < VPAGES
  {
    !Here(dir[a / ENTRIES]) && v / ENTRIES == FirstTable(dir, a / ENTRIES) && v % ENTRIES < a % ENTRIES
  }

  /** The skip of 4 megabytes from an unaligned address lands inside a region: the pages of
      that region below the landing are missed, and no others. */
  lemma {:induction false} SweptExact(dir: Page, a: nat, end: nat, v: nat)
    requires end <= VPAGES && a < VPAGES && v < VPAGES
    ensures v in Swept(dir, a, end) <==> a <= v < end && Here(dir[v / ENTRIES]) && !Missed(dir, a, v)
    decreases end - a
  {
    if a < end {
      if !Here(dir[a / ENTRIES]) {
        SkipRegion(a, v);
        var r := a / ENTRIES;
        assert FirstTable(dir, r) == FirstTable(dir, r + 1);
        if a + ENTRIES < VPAGES {
          SweptExact(dir, a + ENTRIES, end, v);
          assert Here(dir[r + 1]) ==> FirstTable(dir, r + 1) == r + 1;
        }
      } else if a + 1 < VPAGES {
        SweptExact(dir, a + 1, end, v);
        assert (a + 1) / ENTRIES == a / ENTRIES || (a + 1) % ENTRIES == 0;
      }
    }
  }

  lemma SkipRegion(a: nat, v: nat)
    ensures (a + ENTRIES) / ENTRIES == a / ENTRIES + 1 && (a + ENTRIES) % ENTRIES == a % ENTRIES
    ensures a <= v < a + ENTRIES <==> (v / ENTRIES == a / ENTRIES && v % ENTRIES >= a % ENTRIES)
                                      || (v / ENTRIES == a / ENTRIES + 1 && v % ENTRIES < a % ENTRIES)
    ensures a <= v ==> a / ENTRIES <= v / ENTRIES
    ensures v >= a + ENTRIES ==> v / ENTRIES > a / ENTRIES
  {
  }

  /** From an aligned start, or one in a region with a table, nothing is missed. */
  lemma SweptAll(dir: Page, a: nat, end: nat, v: nat)
    requires end <= VPAGES && a < VPAGES && a <= v < end && Here(dir[v / ENTRIES])
    requires a % ENTRIES == 0 || Here(dir[a / ENTRIES])
    ensures v in Swept(dir, a, end)
  {
    SweptExact(dir, a, end, v);
  }

  /** An address space with page 1024 alone, its directory, table and page at 10, 11 and 12. */
  function Lonely(): seq<Page> {
    seq(PAGES, i => Filled(0))[10 := Filled(0)[1 := 11 * PGSIZE + 7]][11 := Filled(0)[0 := 12 * PGSIZE + 7]]
  }

  lemma LonelyPte(v: nat)
    requires v < VPAGES
    ensures Pte(Lonely(), 10, v) == if v == 1024 then 12 * PGSIZE + 7 else 0
  {
    assert !Here(0) && Here(11 * PGSIZE + 7) && Frame(11 * PGSIZE + 7) == 11;
    assert v / ENTRIES == 1 && v % ENTRIES == 0 <==> v == 1024;
  }

  lemma LonelySpace()
    ensures Space(Lonely(), 1, 10, map[10 := Dir, 11 := Table(1), 12 := User(1024)], {1024})
  {
    hide Pte;
    var mem, own := Lonely(), map[10 := Dir, 11 := Table(1), 12 := User(1024)];
    forall v: nat | v < VPAGES
      ensures Here(Pte(mem, 10, v)) <==> v == 1024
      ensures Here(Pte(mem, 10, v)) ==> Frame(Pte(mem, 10, v)) == 12 && Flags(Pte(mem, 10, v)) == USER_FLAGS
    {
      LonelyPte(v);
    }
    assert forall i :: 0 <= i < ENTRIES ==> mem[10][i] == if i == 1 then 11 * PGSIZE + 7 else 0;
    assert Serves(mem, 10, 11, Table(1)) && Serves(mem, 10, 12, User(1024));
  }

  /** A mapped page that is missed: deallocuvm from 2048 pages to one comes past no other
      page than this, and leaves it. */
  lemma SweptMisses()
    ensures Space(Lonely(), 1, 10, map[10 := Dir, 11 := Table(1), 12 := User(1024)], {1024})
    ensures 1024 !in Swept(Lonely()[10], 1, 2048)
  {
    hide Swept, Space;
    LonelySpace();
    var dir := Lonely()[10];
    SweptExact(dir, 1, 2048, 1024);
    assert !Here(dir[0]) && Here(dir[1]);
    assert FirstTable(dir, 1) == 1;
    assert FirstTable(dir, 0) == 1;
  }

  /** In a process's memory, which has no holes, deallocuvm frees all it should. */
  lemma SweptPrefix(mem: seq<Page>, first: nat, pd: nat, own: map<nat, Use>, mapped: set<nat>, n: nat, a: nat, end: nat)
    requires Space(mem, first, pd, own, mapped) && Prefix(mapped, n) && a <= end <= USER
    ensures mapped - Swept(mem[pd], a, end) == set v | v in mapped && !(a <= v < end)
  {
    forall v | v in mapped && v < VPAGES ensures v in Swept(mem[pd], a, end) <==> a <= v < end {
      SweptExact(mem[pd], a, end, v);
      SpaceTableOf(mem, first, pd, own, mapped, v);
      if a <= v < end {
        SpaceTableOf(mem, first, pd, own, mapped, a);
      }
    }
    SweptInside(mem[pd], a, end);
  }

  /** The sweep from n on takes the pages allocuvm added there, and no others. */
  lemma SweptAdded(mem: seq<Page>, first: nat, pd: nat, own: map<nat, Use>, mapped: set<nat>, now: set<nat>, n: nat, top: nat, end: nat)
    requires Space(mem, first, pd, own, now) && Vacant(mapped, n) && now == mapped + Range(n, top) && n <= top <= end <= USER
    ensures |mem| == PAGES && pd < PAGES && now - Swept(mem[pd], n, end) == mapped
  {
    hide Swept, Pte;
    SweptInside(mem[pd], n, end);
    forall v | n <= v < top ensures v in Swept(mem[pd], n, end) {
      SpaceTableOf(mem, first, pd, own, now, v);
      SpaceTableOf(mem, first, pd, own, now, n);
      SweptAll(mem[pd], n, end, v);
    }
  }

  lemma {:induction false} SweptInside(dir: Page, a: nat, end: nat)
    requires end <= VPAGES
    ensures forall v :: v in Swept(dir, a, end) ==> a <= v < end
    decreases end - a
  {
    if a < end {
      SweptInside(dir, a + ENTRIES, end);
      SweptInside(dir, a + 1, end);
    }
  }

  /** allocuvm ran out of memory and took back what it had added. */
  lemma Undone(mem: seq<Page>, mem0: seq<Page>, mem': seq<Page>, first: nat, pd: nat, own: map<nat, Use>, free: seq<nat>,
               own0: map<nat, Use>, free0: seq<nat>, own': map<nat, Use>, free': seq<nat>,
               mapped: set<nat>, now: set<nat>, mapped': set<nat>, oldsz: Word, newsz: Word, a: nat)
    requires Space(mem, first, pd, own, mapped) && Apart(own, free) && Vacant(mapped, Up(oldsz))
    requires oldsz < newsz < KERNBASE && Up(oldsz) <= a <= Up(newsz) <= USER && now == mapped + Range(Up(oldsz), a)
    requires Steady(mem, mem0, own, free) && PtesKept(mem, mem0, pd, mapped)
    requires Space(mem0, first, pd, own0, now) && mapped' == now - Swept(mem0[pd], Up(oldsz), Up(newsz))
    requires Steady(mem0, mem', own', free') && PtesKept(mem0, mem', pd, mapped')
    requires Space(mem', first, pd, own', mapped') && Apart(own', free')
    ensures mapped' == mapped && PtesKept(mem, mem', pd, mapped) && UsersKept(mem, mem', own)
    ensures mapped' - mapped == {} && Zeroed(mem', pd, {})
  {
    hide Pte, Elems, Swept, Space, Vacant, Up, Range;
    SweptAdded(mem0, first, pd, own0, mapped, now, Up(oldsz), a, Up(newsz));
    SpaceMapped(mem, first, pd, own, mapped);
    PtesTrans(mem, mem0, mem', pd, mapped);
    UsersSurvive(mem, mem0, mem', first, pd, own, free, own', free', mapped);
  }

  lemma SpaceMapped(mem: seq<Page>, first: nat, pd: nat, own: map<nat, Use>, mapped: set<nat>)
    requires Space(mem, first, pd, own, mapped)
    ensures |mem| == PAGES && pd < PAGES
  {
  }

  lemma UsersSurvive(mem: seq<Page>, mem0: seq<Page>, mem': seq<Page>, first: nat, pd: nat, own: map<nat, Use>, free: seq<nat>,
                     own': map<nat, Use>, free': seq<nat>, mapped: set<nat>)
    requires Space(mem, first, pd, own, mapped) && Apart(own, free) && Steady(mem, mem0, own, free)
    requires Space(mem', first, pd, own', mapped) && Apart(own', free') && Steady(mem0, mem', own', free')
    requires PtesKept(mem, mem', pd, mapped)
    ensures UsersKept(mem, mem', own)
  {
    hide Pte;
    forall b | b in own && own[b].User? && b < PAGES ensures mem'[b] == mem[b] {
      assert Serves(mem, pd, b, own[b]);
      assert UserOwned(mem', pd, own', own[b].v);
    }
  }

  // ----- freevm -----

  /** After the user pages are gone only the directory and its tables are left. */
  lemma AllTables(mem: seq<Page>, mem': seq<Page>, first: nat, pd: nat, own: map<nat, Use>, mapped: set<nat>,
                  own': map<nat, Use>, mapped': set<nat>)
    requires Space(mem, first, pd, own, mapped) && Space(mem', first, pd, own', mapped')
    requires mapped' == mapped - Swept(mem[pd], 0, USER)
    ensures Remaining(mem'[pd], first, pd, own', own'.Keys, 0)
  {
    hide Swept, Pte;
    forall b | b in own' ensures TableLeft(mem'[pd], first, pd, own', b, 0) {
      assert Serves(mem', pd, b, own'[b]);
      if own'[b].User? {
        var v := own'[b].v;
        assert v in mapped';
        SpaceTableOf(mem, first, pd, own, mapped, v);
        SweptAll(mem[pd], 0, USER, v);
        assert false;
      }
    }
    forall j | 0 <= j < ENTRIES && Here(mem'[pd][j]) ensures Frame(mem'[pd][j]) in own' && own'[Frame(mem'[pd][j])] == Table(j) {
      assert TableOwned(mem', pd, own', j);
    }
  }

  /** The directory, or a table of an entry from i on. */
  predicate TableLeft(dir: Page, first: nat, pd: nat, own: map<nat, Use>, b: nat, i: nat) {
    && b in own && first <= b < PAGES
    && (b == pd || (own[b].Table? && i <= own[b].i < ENTRIES && Here(dir[own[b].i]) && Frame(dir[own[b].i]) == b))
  }

  ghost predicate Remaining(dir: Page, first: nat, pd: nat, own: map<nat, Use>, rest: set<nat>, i: nat) {
    && pd in own && own[pd] == Dir && pd in rest && (forall b :: b in rest ==> TableLeft(dir, first, pd, own, b, i))
    && (forall j :: i <= j < ENTRIES && Here(dir[j]) ==>
          Frame(dir[j]) in rest && Frame(dir[j]) in own && own[Frame(dir[j])] == Table(j))
  }

  lemma RemainingNext(dir: Page, first: nat, pd: nat, own: map<nat, Use>, rest: set<nat>, i: nat)
    requires Remaining(dir, first, pd, own, rest, i) && i < ENTRIES
    ensures Here(dir[i]) ==>
              var f := Frame(dir[i]);
              f in rest && f in own && first <= f < PAGES && f != pd && Remaining(dir, first, pd, own, rest - {f}, i + 1)
    ensures !Here(dir[i]) ==> Remaining(dir, first, pd, own, rest, i + 1)
  {
    if Here(dir[i]) {
      assert TableLeft(dir, first, pd, own, Frame(dir[i]), i);
    }
  }

  lemma RemainingDir(dir: Page, first: nat, pd: nat, own: map<nat, Use>, rest: set<nat>)
    requires Remaining(dir, first, pd, own, rest, ENTRIES)
    ensures rest == {pd} && first <= pd < PAGES && pd in own
  {
    forall b | b in rest ensures b == pd {
      assert TableLeft(dir, first, pd, own, b, ENTRIES);
    }
    assert TableLeft(dir, first, pd, own, pd, ENTRIES);
  }

  /** What is not left is free. */
  ghost predicate Returned(free: seq<nat>, keys: set<nat>, free': seq<nat>, rest: set<nat>) {
    Elems(free') + rest == Elems(free) + keys && Elems(free') !! rest
  }

  lemma ReturnedNone(own: map<nat, Use>, free: seq<nat>)
    requires Apart(own, free)
    ensures Returned(free, own.Keys, free, own.Keys)
  {
  }

  lemma ReturnedNext(free: seq<nat>, keys: set<nat>, free': seq<nat>, rest: set<nat>, f: nat)
    requires Returned(free, keys, free', rest) && f in rest
    ensures f !in free' && Returned(free, keys, [f] + free', rest - {f})
  {
    PushElems(f, free');
    assert f !in Elems(free');
  }

  lemma {:induction false} DistinctSize(xs: seq<nat>)
    requires Distinct(xs)
    ensures |Elems(xs)| == |xs|
  {
    if xs != [] {
      DistinctSize(xs[1..]);
      assert xs == [xs[0]] + xs[1..];
      PushElems(xs[0], xs[1..]);
      assert xs[0] !in Elems(xs[1..]);
    }
  }

  lemma ReturnedAll(mem: seq<Page>, mem1: seq<Page>, head: Word, mem': seq<Page>, first: nat, own: map<nat, Use>, free: seq<nat>,
                    own1: map<nat, Use>, free1: seq<nat>, free': seq<nat>, pd: nat)
    requires Shrunk(own, free, own1, free1) && Steady(mem, mem1, own1, free1) && Apart(own, free) && Distinct(free)
    requires Returned(free1, own1.Keys, free', {}) && Chain(mem', head, free', first) && pd in own1
    requires |mem'| == PAGES && forall b :: 0 <= b < PAGES && b !in own1 ==> mem'[b] == mem1[b]
    ensures Elems(free') == Elems(free) + own.Keys && |free'| == |free| + |own|
    ensures forall b :: 0 <= b < PAGES && b !in own && b !in free ==> mem'[b] == mem[b]
  {
    hide Distinct;
    ChainPages(mem', head, free', first);
    hide Chain;
    assert Elems(free') == Elems(free) + own.Keys;
    DistinctSize(free');
    DistinctSize(free);
    assert Elems(free) !! own.Keys;
    forall b | 0 <= b < PAGES && b !in own && b !in free ensures mem'[b] == mem[b] {
      assert b !in own1.Keys + Elems(free1);
    }
  }

  lemma KernelPrefix()
    ensures Prefix(KernelPages(), Up(0))
  {
  }

  /** deallocuvm leaves exactly the pages below the new size, if there were none but the
      first ones. */
  lemma PrefixShrinks(mem: seq<Page>, first: nat, pd: nat, own: map<nat, Use>, mapped: set<nat>, n: nat, oldsz: Word, newsz: Word)
    requires Space(mem, first, pd, own, mapped) && Prefix(mapped, n) && newsz < oldsz <= KERNBASE && n <= Up(oldsz)
    ensures Up(newsz) <= Up(oldsz) <= USER
    ensures Prefix(mapped - Swept(mem[pd], Up(newsz), Up(oldsz)), if n < Up(newsz) then n else Up(newsz))
    ensures forall v :: v in mapped && v >= USER ==> v in mapped - Swept(mem[pd], Up(newsz), Up(oldsz))
  {
    hide Swept, Space;
    UpLess(newsz, oldsz);
    SpaceMapped(mem, first, pd, own, mapped);
    SweptPrefix(mem, first, pd, own, mapped, n, Up(newsz), Up(oldsz));
  }

  // ----- Counting pages -----

  ghost function TableKeys(own: map<nat, Use>): set<nat> {
    set b | b in own && own[b].Table?
  }

  ghost function UserKeys(own: map<nat, Use>): set<nat> {
    set b | b in own && own[b].User?
  }

  ghost function UserPart(mapped: set<nat>): set<nat> {
    set v | v in mapped && v < USER
  }

  /** The tables among the pages of an address space, by region. */
  lemma TableCount(mem: seq<Page>, first: nat, pd: nat, own: map<nat, Use>, mapped: set<nat>)
    requires Space(mem, first, pd, own, mapped)
    ensures |TableKeys(own)| == |Tables(mem, pd)|
  {
    hide Pte;
    var t := map b | b in own && own[b].Table? :: own[b].i;
    forall a, b | a in t && b in t && t[a] == t[b] ensures a == b {
      assert Serves(mem, pd, a, own[a]) && Serves(mem, pd, b, own[b]);
    }
    ImageSize(t);
    forall i | i in Tables(mem, pd) ensures i in t.Values {
      assert TableOwned(mem, pd, own, i);
      assert Frame(mem[pd][i]) in t && t[Frame(mem[pd][i])] == i;
    }
    forall i | i in t.Values ensures i in Tables(mem, pd) {
      var b :| b in t && t[b] == i;
      assert Serves(mem, pd, b, own[b]);
    }
    assert t.Values == Tables(mem, pd);
    assert t.Keys == TableKeys(own);
  }

  /** The user's pages, by virtual page. */
  lemma UserCount(mem: seq<Page>, first: nat, pd: nat, own: map<nat, Use>, mapped: set<nat>)
    requires Space(mem, first, pd, own, mapped)
    ensures |UserKeys(own)| == |UserPart(mapped)|
  {
    hide Pte;
    var u := map b | b in own && own[b].User? :: own[b].v;
    forall a, b | a in u && b in u && u[a] == u[b] ensures a == b {
      assert Serves(mem, pd, a, own[a]) && Serves(mem, pd, b, own[b]);
    }
    ImageSize(u);
    forall v | v in UserPart(mapped) ensures v in u.Values {
      assert UserOwned(mem, pd, own, v);
      assert Frame(Pte(mem, pd, v)) in u && u[Frame(Pte(mem, pd, v))] == v;
    }
    forall v | v in u.Values ensures v in UserPart(mapped) {
      var b :| b in u && u[b] == v;
      assert Serves(mem, pd, b, own[b]);
    }
    assert u.Values == UserPart(mapped);
    assert u.Keys == UserKeys(own);
  }

  /** An address space has a directory, its tables and its user pages, and nothing else. */
  lemma OwnSize(mem: seq<Page>, first: nat, pd: nat, own: map<nat, Use>, mapped: set<nat>)
    requires Space(mem, first, pd, own, mapped)
    ensures |own| == 1 + |Tables(mem, pd)| + |UserPart(mapped)|
  {
    hide Pte, Tables, UserPart, Space;
    TableCount(mem, first, pd, own, mapped);
    UserCount(mem, first, pd, own, mapped);
    OneDir(mem, first, pd, own, mapped);
    ThreeKinds(own, pd);
  }

  lemma ThreeKinds(own: map<nat, Use>, pd: nat)
    requires pd in own && forall b :: b in own ==> (own[b].Dir? <==> b == pd)
    ensures |own| == 1 + |TableKeys(own)| + |UserKeys(own)|
  {
    var t, u := TableKeys(own), UserKeys(own);
    assert own.Keys == {pd} + t + u;
    assert {pd} !! t && {pd} + t !! u;
    assert |{pd} + t| == 1 + |t|;
    assert |{pd} + t + u| == |{pd} + t| + |u|;
  }

  lemma OneDir(mem: seq<Page>, first: nat, pd: nat, own: map<nat, Use>, mapped: set<nat>)
    requires Space(mem, first, pd, own, mapped)
    ensures pd in own && forall b :: b in own ==> (own[b].Dir? <==> b == pd)
  {
    hide Pte;
    forall b | b in own && own[b].Dir? ensures b == pd {
      assert Serves(mem, pd, b, own[b]);
    }
  }

  /** Pages that pass to and fro keep their number. */
  lemma SameNumber(own: map<nat, Use>, free: seq<nat>, own': map<nat, Use>, free': seq<nat>, gone: set<nat>)
    requires own'.Keys + Elems(free') + gone == own.Keys + Elems(free) && gone !! own'.Keys && gone !! Elems(free')
    requires Apart(own, free) && Apart(own', free') && Distinct(free) && Distinct(free')
    ensures |own'| + |free'| + |gone| == |own| + |free|
  {
    DistinctSize(free);
    DistinctSize(free');
    assert own.Keys !! Elems(free) && own'.Keys !! Elems(free');
    assert |own'.Keys + Elems(free') + gone| == |own'| + |free'| + |gone|;
    assert |own.Keys + Elems(free)| == |own| + |free|;
  }

  /** The free pages it takes to map the user pages n up to a where `tables` are there: the
      pages, and a table for each region that has none. */
  ghost function Cost(tables: set<nat>, n: nat, a: nat): int {
    a - n + |tables + Regions(n, a)| - |tables|
  }

  lemma CostNext(tables: set<nat>, n: nat, a: nat)
    requires n <= a
    ensures Cost(tables, n, a + 1) == Cost(tables, n, a) + if a / ENTRIES in tables + Regions(n, a) then 1 else 2
  {
    RegionsNext(n, a);
    var t, r := tables + Regions(n, a), a / ENTRIES;
    hide Regions;
    assert tables + Regions(n, a + 1) == t + {r};
    if r in t {
      assert t + {r} == t;
    } else {
      assert |t + {r}| == |t| + 1;
    }
  }

  lemma {:induction false} CostGrows(tables: set<nat>, n: nat, a: nat, b: nat)
    requires n <= a <= b
    ensures Cost(tables, n, a) + (b - a) <= Cost(tables, n, b)
    decreases b - a
  {
    hide Cost;
    if a < b {
      CostNext(tables, n, a);
      CostGrows(tables, n, a + 1, b);
    }
  }

  /** Pages pass to and fro; those in gone are lost to both sides. */
  ghost predicate Balanced(own: map<nat, Use>, free: seq<nat>, own': map<nat, Use>, free': seq<nat>, gone: set<nat>) {
    && own'.Keys + Elems(free') + gone == own.Keys + Elems(free) && gone !! own'.Keys && gone !! Elems(free')
    && forall b :: b in own && b in own' ==> own'[b] == own[b]
  }

  /** Where allocuvm began. */
  datatype Start = Start(first: nat, pd: nat, n: nat, mem: seq<Page>, own: map<nat, Use>, free: seq<nat>, mapped: set<nat>)

  /** allocuvm has come to page a and mapped the pages up to top: all before a, or all but
      one whose table had no memory. */
  ghost predicate Growing(s: Start, mem: seq<Page>, own: map<nat, Use>, free: seq<nat>, now: set<nat>, a: nat, top: nat,
                          keep: seq<nat>, gone: set<nat>) {
    && Space(s.mem, s.first, s.pd, s.own, s.mapped) && Apart(s.own, s.free) && Distinct(s.free) && Vacant(s.mapped, s.n)
    && s.n <= top <= a && now == s.mapped + Range(s.n, top) && Grew(s.own, s.free, own, keep) && Steady(s.mem, mem, s.own, s.free)
    && Distinct(keep) && Apart(own, keep) && PtesKept(s.mem, mem, s.pd, s.mapped) && Zeroed(mem, s.pd, now - s.mapped)
    && Tables(mem, s.pd) == Tables(s.mem, s.pd) + Regions(s.n, top) && |gone| <= 1
    && if gone == {} then top == a && keep == free
       else top + 1 == a && free == [] && gone == Elems(keep) && |keep| == 1 && top / ENTRIES !in Tables(mem, s.pd)
  }

  lemma GrowStart(s: Start)
    requires Space(s.mem, s.first, s.pd, s.own, s.mapped) && Apart(s.own, s.free) && Distinct(s.free) && Vacant(s.mapped, s.n)
    requires Grew(s.own, s.free, s.own, s.free) && Steady(s.mem, s.mem, s.own, s.free)
    ensures Growing(s, s.mem, s.own, s.free, s.mapped, s.n, s.n, s.free, {})
  {
    hide Space, Apart, Distinct, Vacant, Grew, Steady, Pte, Tables, Regions;
    SpaceMapped(s.mem, s.first, s.pd, s.own, s.mapped);
    NothingYet(s.mem, s.pd, s.own, s.free, s.mapped);
    RegionsNone(s.n);
    RangeEmpty(s.mapped, s.n);
  }

  lemma GrowFacts(s: Start, mem: seq<Page>, own: map<nat, Use>, free: seq<nat>, now: set<nat>, a: nat, top: nat,
                  keep: seq<nat>, gone: set<nat>)
    requires Growing(s, mem, own, free, now, a, top, keep, gone)
    ensures s.n <= top <= a && now == s.mapped + Range(s.n, top) && Grew(s.own, s.free, own, keep) && Steady(s.mem, mem, s.own, s.free)
    ensures Distinct(keep) && Apart(own, keep) && PtesKept(s.mem, mem, s.pd, s.mapped) && Zeroed(mem, s.pd, now - s.mapped)
    ensures Space(s.mem, s.first, s.pd, s.own, s.mapped) && Apart(s.own, s.free) && Distinct(s.free) && Vacant(s.mapped, s.n)
    ensures a < USER ==> a !in now
    ensures Tables(mem, s.pd) == Tables(s.mem, s.pd) + Regions(s.n, top) && |gone| <= 1
    ensures if gone == {} then top == a && keep == free
            else top + 1 == a && free == [] && gone == Elems(keep) && |keep| == 1 && |gone| == 1 && top / ENTRIES !in Tables(mem, s.pd)
  {
    hide Space, Apart, Distinct, Grew, Steady, Pte, Tables, Regions, PtesKept, Zeroed, Elems;
    if a < USER {
      FreshUser(s.mapped, s.n, top, a);
    }
    if gone != {} {
      OnePage(keep);
    }
  }

  lemma GrowEnd(s: Start, mem: seq<Page>, own: map<nat, Use>, free: seq<nat>, now: set<nat>, a: nat, top: nat,
                keep: seq<nat>, gone: set<nat>, newsz: Word)
    requires Growing(s, mem, own, free, now, a, top, keep, gone) && Space(mem, s.first, s.pd, own, now) && a <= USER
    ensures Balanced(s.own, s.free, own, free, gone) && UsersKept(s.mem, mem, s.own) && |gone| <= 1 && (gone != {} ==> free == [])
    ensures Allocated(|s.free|, Tables(s.mem, s.pd), s.mapped, s.n, a, newsz, newsz, gone, now)
    ensures Tables(s.mem, s.pd) <= Tables(mem, s.pd) <= Tables(s.mem, s.pd) + Regions(s.n, a)
    ensures PtesKept(s.mem, mem, s.pd, s.mapped) && Zeroed(mem, s.pd, now - s.mapped)
  {
    hide Space, Apart, Distinct, Vacant, Grew, Steady, Pte, Tables, Regions, PtesKept, Zeroed, Elems, Balanced, UsersKept, Cost, Range;
    hide Allocated;
    GrowFacts(s, mem, own, free, now, a, top, keep, gone);
    Spent(s.mem, mem, s.first, s.pd, s.own, s.free, own, keep, s.mapped, Tables(s.mem, s.pd), s.n, top);
    Closing(s.mem, mem, s.own, s.free, own, keep, free, gone);
    Granted(|s.free|, Tables(s.mem, s.pd), s.mapped, s.n, top, a, newsz, gone, |keep|);
    RegionsWithin(s.n, top, a);
  }

  lemma GrowLost(s: Start, mem0: seq<Page>, own0: map<nat, Use>, free0: seq<nat>, now: set<nat>, a: nat, top: nat, keep: seq<nat>,
                 mem: seq<Page>, free: seq<nat>)
    requires Growing(s, mem0, own0, free0, now, a, top, keep, {}) && Space(mem0, s.first, s.pd, own0, now) && Apart(own0, free0)
    requires a < USER && |free0| == 1 && free == [] && a / ENTRIES !in Tables(mem0, s.pd) && Tables(mem, s.pd) == Tables(mem0, s.pd)
    requires Steady(mem0, mem, own0, free0) && PtesKept(mem0, mem, s.pd, now)
    ensures Growing(s, mem, own0, free, now, a + 1, top, keep, Elems(keep))
  {
    hide Space, Apart, Distinct, Vacant, Grew, Steady, Pte, Tables, Regions, PtesKept, Zeroed, Elems;
    FreshUser(s.mapped, s.n, top, a);
    SteadyThen(s.own, s.free, own0, free0, s.mem, mem0, mem);
    PtesWeaken(mem0, mem, s.pd, now, s.mapped);
    PtesTrans(s.mem, mem0, mem, s.pd, s.mapped);
    ZeroedStill(mem0, mem, s.first, s.pd, own0, free0, now, now - s.mapped);
    OnePage(keep);
  }

  lemma GrowNext(s: Start, mem0: seq<Page>, own0: map<nat, Use>, free0: seq<nat>, now: set<nat>, a: nat, top: nat, keep: seq<nat>,
                 mem: seq<Page>, own: map<nat, Use>, free: seq<nat>)
    requires Growing(s, mem0, own0, free0, now, a, top, keep, {}) && Space(mem0, s.first, s.pd, own0, now) && Apart(own0, free0)
    requires a < USER && Tables(mem, s.pd) == Tables(mem0, s.pd) + {a / ENTRIES} && Distinct(free) && Apart(own, free)
    requires Steady(mem0, mem, own0, free0) && PtesKept(mem0, mem, s.pd, now) && Grew(own0, free0, own, free)
    requires HoldsPage(mem, s.pd, a, Filled(0))
    ensures Growing(s, mem, own, free, now + {a}, a + 1, a + 1, free, {})
  {
    hide Space, Apart, Distinct, Vacant, Grew, Steady, Pte, Tables, Regions, PtesKept, Zeroed, HoldsPage;
    FreshUser(s.mapped, s.n, top, a);
    GrewThen(s.own, s.free, own0, free0, own, free);
    SteadyThen(s.own, s.free, own0, free0, s.mem, mem0, mem);
    PtesWeaken(mem0, mem, s.pd, now, s.mapped);
    PtesTrans(s.mem, mem0, mem, s.pd, s.mapped);
    ZeroedNext(mem0, mem, s.first, s.pd, own0, free0, now, now - s.mapped, a);
    MappedNext(s.mapped, s.n, a, now);
    RegionsNext(s.n, a);
  }

  /** The one number of free pages with which allocuvm gives out a size whose last page is
      not there. */
  ghost predicate Hole(count: nat, tables: set<nat>, n: nat, n': nat) {
    n < n' && count + 1 == Cost(tables, n, n') && (n' - 1) / ENTRIES !in tables + Regions(n, n' - 1)
  }

  /** One page free and a fresh address space: a process that asks for its first byte gets
      it, and has no page. */
  lemma HoleAtStart()
    ensures Hole(1, KernelTables(), 0, 1)
  {
    hide KernelTables, Regions, Cost;
    KernelTablesHigh();
    RegionsNone(0);
    CostNone(KernelTables(), 0);
    CostNext(KernelTables(), 0, 0);
  }

  /** What allocuvm comes to with this many free pages. */
  ghost predicate Allocated(count: nat, tables: set<nat>, mapped: set<nat>, n: nat, n': nat, newsz: Word, r: Word, gone: set<nat>,
                            mapped': set<nat>) {
    if count >= Cost(tables, n, n') then r == newsz && gone == {} && mapped' == mapped + Range(n, n')
    else if Hole(count, tables, n, n') then r == newsz && |gone| == 1 && mapped' == mapped + Range(n, n' - 1)
    else r == 0 && mapped' == mapped && |gone| == if Loses(count, tables, n, n') then 1 else 0
  }

  /** On its way allocuvm comes to a page that is the last one free and has no table. */
  ghost predicate Loses(count: nat, tables: set<nat>, n: nat, n': nat) {
    exists k :: n < k < n' && Hole(count, tables, n, k)
  }

  lemma NothingGone(own: map<nat, Use>, free: seq<nat>)
    ensures Balanced(own, free, own, free, {})
  {
  }

  lemma UpNext(oldsz: Word, newsz: Word)
    requires oldsz <= newsz < KERNBASE
    ensures Up(oldsz) <= Up(newsz) <= USER
  {
  }

  lemma PageBefore(a: nat, sz: Word)
    requires a * PGSIZE < sz <= KERNBASE
    ensures a < Up(sz) <= USER
  {
  }

  lemma UpLast(a: nat, newsz: Word)
    requires a * PGSIZE >= newsz && a <= Up(newsz)
    ensures a == Up(newsz)
  {
  }

  lemma RangeEmpty(mapped: set<nat>, n: nat)
    ensures mapped + Range(n, n) == mapped
  {
  }

  lemma OnePage(keep: seq<nat>)
    requires |keep| == 1
    ensures Elems(keep) == {keep[0]} && |Elems(keep)| == 1
  {
    assert keep == [keep[0]];
  }

  /** The page to be mapped next is not mapped, and those added so far are user pages. */
  lemma FreshUser(mapped: set<nat>, n: nat, top: nat, a: nat)
    requires Vacant(mapped, n) && n <= top <= a < USER
    ensures a !in mapped + Range(n, top)
    ensures forall v :: v in mapped + Range(n, top) - mapped ==> v < USER
  {
  }

  lemma MappedNext(mapped: set<nat>, n: nat, a: nat, now: set<nat>)
    requires Vacant(mapped, n) && n <= a < USER && now == mapped + Range(n, a)
    ensures now + {a} == mapped + Range(n, a + 1) && now + {a} - mapped == now - mapped + {a}
  {
    RangeNext(n, a);
  }

  lemma RegionsWithin(n: nat, top: nat, n': nat)
    requires n <= top <= n'
    ensures Regions(n, top) <= Regions(n, n')
  {
  }

  lemma UserGrown(mapped: set<nat>, n: nat, top: nat)
    requires Vacant(mapped, n) && n <= top <= USER
    ensures |UserPart(mapped + Range(n, top))| == |UserPart(mapped)| + (top - n)
  {
    RangeSize(n, top);
    assert UserPart(mapped + Range(n, top)) == UserPart(mapped) + Range(n, top);
    assert UserPart(mapped) !! Range(n, top);
  }

  /** The pages allocuvm has taken from the free list so far. */
  lemma Spent(mem: seq<Page>, mem': seq<Page>, first: nat, pd: nat, own: map<nat, Use>, free: seq<nat>, own': map<nat, Use>,
              keep: seq<nat>, mapped: set<nat>, tables: set<nat>, n: nat, top: nat)
    requires Space(mem, first, pd, own, mapped) && Space(mem', first, pd, own', mapped + Range(n, top)) && Vacant(mapped, n)
    requires n <= top <= USER && tables == Tables(mem, pd) && Tables(mem', pd) == tables + Regions(n, top)
    requires Grew(own, free, own', keep) && Apart(own, free) && Apart(own', keep) && Distinct(free) && Distinct(keep)
    ensures |free| == |keep| + Cost(tables, n, top)
  {
    hide Space, Tables, Regions, UserPart, Vacant, Apart, Distinct;
    OwnSize(mem, first, pd, own, mapped);
    OwnSize(mem', first, pd, own', mapped + Range(n, top));
    UserGrown(mapped, n, top);
    SameNumber(own, free, own', keep, {});
  }

  lemma GoneBack(own: map<nat, Use>, free: seq<nat>, own0: map<nat, Use>, keep: seq<nat>, free0: seq<nat>, own': map<nat, Use>,
                 free': seq<nat>, gone: set<nat>)
    requires Grew(own, free, own0, keep) && Shrunk(own0, free0, own', free') && Apart(own0, keep)
    requires if gone == {} then keep == free0 else free0 == [] && gone == Elems(keep)
    ensures Balanced(own, free, own', free', gone)
  {
    assert gone !! own0.Keys + Elems(free0);
    assert Elems(keep) == Elems(free0) + gone;
    forall b | b in own && b in own' ensures own'[b] == own[b] {
      assert b in own0;
    }
  }

  lemma Closing(mem: seq<Page>, mem': seq<Page>, own: map<nat, Use>, free: seq<nat>, own': map<nat, Use>, keep: seq<nat>,
                free': seq<nat>, gone: set<nat>)
    requires Grew(own, free, own', keep) && Steady(mem, mem', own, free) && Apart(own, free) && Apart(own', keep)
    requires if gone == {} then keep == free' else free' == [] && gone == Elems(keep)
    ensures Balanced(own, free, own', free', gone) && UsersKept(mem, mem', own)
  {
    assert Elems(keep) == Elems(free') + gone;
  }

  lemma Refused(count: nat, tables: set<nat>, mapped: set<nat>, n: nat, top: nat, n': nat, newsz: Word, gone: set<nat>, kept: nat)
    requires n <= top && count == kept + Cost(tables, n, top)
    requires if gone == {} then kept == 0 && top < n'
             else kept == 1 && |gone| == 1 && top + 1 < n' && top / ENTRIES !in tables + Regions(n, top)
    ensures Allocated(count, tables, mapped, n, n', newsz, 0, gone, mapped)
  {
    hide Cost, Regions;
    CostGrows(tables, n, top, n' - 1);
    CostNext(tables, n, n' - 1);
    if gone != {} {
      CostNext(tables, n, top);
      CostGrows(tables, n, top + 1, n' - 1);
      assert Hole(count, tables, n, top + 1);
    } else {
      forall k | n < k < n' ensures !Hole(count, tables, n, k) {
        NoHole(count, tables, n, top, k);
      }
    }
  }

  /** Where the pages are used up at top, no page up to there or after it is a hole. */
  lemma NoHole(count: nat, tables: set<nat>, n: nat, top: nat, k: nat)
    requires n <= top && n < k && count == Cost(tables, n, top)
    ensures !Hole(count, tables, n, k)
  {
    hide Cost, Regions;
    CostNext(tables, n, k - 1);
    if k <= top {
      CostGrows(tables, n, k, top);
    } else {
      CostGrows(tables, n, top, k - 1);
    }
  }

  lemma Granted(count: nat, tables: set<nat>, mapped: set<nat>, n: nat, top: nat, n': nat, newsz: Word, gone: set<nat>, kept: nat)
    requires n <= top && count == kept + Cost(tables, n, top)
    requires if gone == {} then top == n'
             else kept == 1 && |gone| == 1 && top + 1 == n' && top / ENTRIES !in tables + Regions(n, top)
    ensures Allocated(count, tables, mapped, n, n', newsz, newsz, gone, mapped + Range(n, top))
  {
    hide Cost, Regions;
    if gone != {} {
      CostNext(tables, n, top);
    }
  }

  /** The tables of the kernel's half: 56 for physical memory, 8 for the devices. */
  function KernelTables(): set<nat> {
    Range(512, 568) + Range(1016, 1024)
  }

  lemma KernelTablesSize()
    ensures |KernelTables()| == 64
  {
    RangeSize(512, 568);
    RangeSize(1016, 1024);
    assert Range(512, 568) !! Range(1016, 1024);
  }

  /** The tables the first k entries of kmap need. */
  function KmapTables(data: nat, k: nat): set<nat> {
    if k == 0 then {}
    else if k == 1 then Range(512, 513)
    else if k == 2 then Range(512, (USER + data - 1) / ENTRIES + 1)
    else if k == 3 then Range(512, 568)
    else KernelTables()
  }

  lemma KmapTablesNext(data: nat, k: nat)
    requires 0x100 < data < PAGES && k < 4
    ensures var e := KmapAt(data, k);
            && KmapTables(data, k) + Regions(e.a, e.last + 1) == KmapTables(data, k + 1)
            && KmapTables(data, k + 1) <= KernelTables()
  {
  }

  lemma CoveredNone(data: nat)
    ensures Covered(data, 0) == {} && KmapTables(data, 0) == {}
  {
  }

  lemma NewApart(pd: nat, free: seq<nat>)
    requires pd !in free
    ensures Apart(map[pd := Dir], free)
  {
  }

  lemma SteadySizes(mem: seq<Page>, mem': seq<Page>, own: map<nat, Use>, free: seq<nat>)
    requires Steady(mem, mem', own, free)
    ensures |mem| == |mem'| == PAGES
  {
  }

  /** setupkvm out of memory in entry k of kmap: fewer than 65 pages were free. */
  lemma TooFew(mem: seq<Page>, first: nat, pd: nat, own: map<nat, Use>, data: nat, k: nat, was: seq<nat>)
    requires 0x100 < data < PAGES && k < 4 && Distinct(was) && own.Keys + Elems([]) == Elems(was)
    requires var e := KmapAt(data, k);
             exists v :: e.a <= v <= e.last && NoRoom(mem, first, pd, own, Covered(data, k), e.a, v, KmapTables(data, k))
    ensures |was| < 65
  {
    hide NoRoom, KmapTables, Covered, Elems;
    var e := KmapAt(data, k);
    var v :| e.a <= v <= e.last && NoRoom(mem, first, pd, own, Covered(data, k), e.a, v, KmapTables(data, k));
    NoRoomSize(mem, first, pd, own, Covered(data, k), e.a, v, KmapTables(data, k));
    TablesLess(data, k, v);
    OwnAll(own, [], was);
  }

  lemma NoRoomSize(mem: seq<Page>, first: nat, pd: nat, own: map<nat, Use>, mapped: set<nat>, a: nat, v: nat, tables: set<nat>)
    requires NoRoom(mem, first, pd, own, mapped, a, v, tables)
    ensures |own| == 1 + |tables + Regions(a, v)| + |UserPart(mapped + Range(a, v))| && v / ENTRIES !in tables + Regions(a, v)
  {
    hide Space, Tables, Regions, UserPart;
    OwnSize(mem, first, pd, own, mapped + Range(a, v));
  }

  lemma TablesLess(data: nat, k: nat, v: nat)
    requires 0x100 < data < PAGES && k < 4 && KmapAt(data, k).a <= v <= KmapAt(data, k).last
    requires v / ENTRIES !in KmapTables(data, k) + Regions(KmapAt(data, k).a, v)
    ensures |KmapTables(data, k) + Regions(KmapAt(data, k).a, v)| < 64
    ensures UserPart(Covered(data, k) + Range(KmapAt(data, k).a, v)) == {}
  {
    hide KmapTables, KernelTables, Regions, Covered, UserPart;
    var e := KmapAt(data, k);
    NoUserPages(data, k, v);
    KmapTablesNext(data, k);
    RegionsMore(e.a, v, e.last + 1);
    var t, r := KmapTables(data, k) + Regions(e.a, v), v / ENTRIES;
    SubsetSize(t + {r}, KernelTables());
    KernelTablesSize();
  }

  lemma OwnAll(own: map<nat, Use>, free: seq<nat>, was: seq<nat>)
    requires Distinct(was) && own.Keys + Elems(free) == Elems(was)
    ensures |own| <= |was| && (free == [] ==> |own| == |was|)
  {
    DistinctSize(was);
    SubsetSize(own.Keys, Elems(was));
    assert |own.Keys| == |own|;
    if free == [] {
      assert own.Keys == Elems(was);
    }
  }

  lemma RegionsMore(a: nat, v: nat, b: nat)
    requires a <= v < b
    ensures Regions(a, v) <= Regions(a, b) && v / ENTRIES in Regions(a, b)
  {
  }

  lemma NoUserPages(data: nat, k: nat, v: nat)
    requires 0x100 < data < PAGES && k <= 4
    ensures UserPart(Covered(data, k)) == {}
    ensures k < 4 ==> UserPart(Covered(data, k) + Range(KmapAt(data, k).a, v)) == {}
  {
  }

  lemma JustEnough(mem: seq<Page>, head: Word, first: nat, pd: nat, own: map<nat, Use>, data: nat, was: seq<nat>, free: seq<nat>)
    requires 0x100 < data < PAGES && Distinct(was) && own.Keys + Elems(free) == Elems(was)
    requires Space(mem, first, pd, own, Covered(data, 4)) && Tables(mem, pd) == KmapTables(data, 4)
    ensures |was| >= 65 && Covered(data, 4) == KernelPages() && Tables(mem, pd) == KernelTables()
  {
    hide Space, Tables, KernelTables, UserPart, KernelPages;
    OwnSize(mem, first, pd, own, Covered(data, 4));
    NoUserPages(data, 4, 0);
    KernelTablesSize();
    OwnAll(own, free, was);
  }

  // ----- growproc -----

  /** The process asks to give back exactly what it has. */
  predicate AllBack(sz: Word, n: int) {
    n < 0 && sz + n == 0
  }

  /** The size asked for is below the kernel and there is memory for it, or a hole. */
  ghost predicate Grown(count: nat, tables: set<nat>, sz: Word, n: int) {
    n > 0 ==> sz + n < KERNBASE && (count >= Cost(tables, Up(sz), Up(sz + n)) || Hole(count, tables, Up(sz), Up(sz + n)))
  }

  ghost predicate HoleAt(count: nat, tables: set<nat>, sz: Word, n: int) {
    n > 0 && sz + n < KERNBASE && count < Cost(tables, Up(sz), Up(sz + n)) && Hole(count, tables, Up(sz), Up(sz + n))
  }

  lemma GrownBy(count: nat, tables: set<nat>, mapped: set<nat>, sz: Word, n: int, r: Word, gone: set<nat>, mapped': set<nat>)
    requires n > 0 && sz <= KERNBASE && sz + n < 0x1_0000_0000
    requires if sz + n >= KERNBASE then r == 0 && mapped' == mapped
             else Allocated(count, tables, mapped, Up(sz), Up(sz + n), sz + n, r, gone, mapped')
    ensures r != 0 <==> Grown(count, tables, sz, n)
    ensures r == if r != 0 then sz + n else 0
    ensures Prefix(mapped, Up(sz)) ==> (Prefix(mapped', Up(if r != 0 then r else sz)) <==> !HoleAt(count, tables, sz, n))
  {
    hide Cost, Hole;
    if sz + n < KERNBASE {
      UpLess(sz, sz + n);
      var top := Up(sz + n);
      if Prefix(mapped, Up(sz)) && HoleAt(count, tables, sz, n) {
        HoleGrows(count, tables, Up(sz), top);
        assert top - 1 !in mapped' && top - 1 < USER;
      }
    }
  }

  lemma HoleGrows(count: nat, tables: set<nat>, n: nat, n': nat)
    requires Hole(count, tables, n, n')
    ensures n < n'
  {
  }

  lemma ShrunkBalanced(own: map<nat, Use>, free: seq<nat>, own': map<nat, Use>, free': seq<nat>)
    requires Shrunk(own, free, own', free')
    ensures Balanced(own, free, own', free', {})
  {
  }

  /** The pages below m are not those below sz. */
  lemma PrefixOnly(mapped: set<nat>, m: Word, sz: Word)
    requires Prefix(mapped, Up(m)) && m < sz <= KERNBASE
    ensures m == 0 ==> Prefix(mapped, 0) && !Prefix(mapped, Up(sz))
  {
    if m == 0 {
      assert 0 !in mapped && 0 < Up(sz);
    }
  }

  // ----- The life of a process -----

  /** hole: the last page below the size is not there. */
  datatype Snap = Snap(sz: Word, mem: seq<Page>, own: map<nat, Use>, mapped: set<nat>, free: seq<nat>, gone: set<nat>, hole: bool)

  /** The user pages there are. */
  function Have(s: Snap): nat {
    if s.hole && Up(s.sz) > 0 then Up(s.sz) - 1 else Up(s.sz)
  }

  /** Each page is of use to the process, free, or gone. */
  ghost predicate Accounted(all: set<nat>, own: map<nat, Use>, free: seq<nat>, gone: set<nat>) {
    own.Keys + Elems(free) + gone == all && gone !! own.Keys && gone !! Elems(free)
  }

  /** The user pages are those below the size, but for the hole, which is there only while
      no page is free; and each page of `all` is accounted for. */
  ghost predicate Sound(first: nat, pd: nat, all: set<nat>, s: Snap) {
    && Space(s.mem, first, pd, s.own, s.mapped) && Apart(s.own, s.free) && Distinct(s.free)
    && Accounted(all, s.own, s.free, s.gone) && s.sz <= KERNBASE && Prefix(s.mapped, Have(s))
    && (s.hole ==> Up(s.sz) > 0 && s.free == [])
  }

  /** A hole stays while the last page does. */
  predicate HoleNow(s: Snap, n: Word) {
    s.hole && Up(n) == Up(s.sz)
  }

  /** What becomes of the size, the hole and the lost pages when a process asks for n: with
      memory enough it has that size; one page short at the first page of a region it has
      it with a hole; else it stays as it is, and may have lost a page on the way. */
  ghost predicate Sized(pd: nat, s: Snap, n: Word, s': Snap) {
    var count, tables := |s.free|, Tables(s.mem, pd);
    if n <= s.sz then s'.sz == n && s'.hole == HoleNow(s, n) && s'.gone == s.gone
    else if n >= KERNBASE then s'.sz == s.sz && s'.hole == s.hole && s'.gone == s.gone
    else if count >= Cost(tables, Up(s.sz), Up(n)) then s'.sz == n && s'.hole == s.hole && s'.gone == s.gone
    else if Hole(count, tables, Up(s.sz), Up(n)) then s'.sz == n && s'.hole && |s'.gone| == |s.gone| + 1
    else s'.sz == s.sz && s'.hole == s.hole && |s'.gone| == |s.gone| + if Loses(count, tables, Up(s.sz), Up(n)) then 1 else 0
  }

  /** And it keeps the memory that is there before and after, and finds zeros in the rest. */
  ghost predicate Follows(pd: nat, s: Snap, n: Word, s': Snap) {
    && Sized(pd, s, n, s') && s.gone <= s'.gone
    && |s.mem| == PAGES && pd < PAGES && forall v :: 0 <= v < Have(s') && v < VPAGES ==> Carried(pd, s, s', v)
  }

  ghost predicate Carried(pd: nat, s: Snap, s': Snap, v: nat)
    requires |s.mem| == PAGES && pd < PAGES && v < VPAGES
  {
    if v < Have(s) then Frame(Pte(s.mem, pd, v)) < PAGES && HoldsPage(s'.mem, pd, v, s.mem[Frame(Pte(s.mem, pd, v))])
    else HoldsPage(s'.mem, pd, v, Filled(0))
  }

  lemma SoundParts(first: nat, pd: nat, all: set<nat>, s: Snap)
    requires Sound(first, pd, all, s)
    ensures Space(s.mem, first, pd, s.own, s.mapped) && Apart(s.own, s.free) && Distinct(s.free)
    ensures Accounted(all, s.own, s.free, s.gone) && s.sz <= KERNBASE && Prefix(s.mapped, Have(s))
    ensures s.hole ==> Up(s.sz) > 0 && s.free == []
  {
  }

  lemma HaveVacant(s: Snap)
    requires Prefix(s.mapped, Have(s)) && s.sz <= KERNBASE
    ensures Vacant(s.mapped, Up(s.sz))
  {
  }

  lemma FirstSound(first: nat, pd: nat, was: seq<nat>, s: Snap)
    requires Space(s.mem, first, pd, s.own, s.mapped) && Apart(s.own, s.free) && Distinct(s.free) && s.gone == {} && !s.hole
    requires s.own.Keys + Elems(s.free) == Elems(was) && s.sz == 0 && Prefix(s.mapped, Up(0))
    ensures Sound(first, pd, Elems(was), s) && Accounted(Elems(was), s.own, s.free, {})
  {
    hide Space, Up, Prefix, Apart, Distinct, Elems;
  }

  lemma AccountedGrown(all: set<nat>, s: Snap, lost: set<nat>, s': Snap)
    requires Accounted(all, s.own, s.free, s.gone) && Balanced(s.own, s.free, s'.own, s'.free, lost)
    requires s'.gone == s.gone + lost
    ensures Accounted(all, s'.own, s'.free, s'.gone) && |s'.gone| == |s.gone| + |lost|
  {
    hide Elems;
    assert s.gone !! lost;
  }

  /** Where no page was free and the user pages are the same, none is free. */
  lemma StillNone(first: nat, pd: nat, all: set<nat>, s: Snap, s': Snap)
    requires Sound(first, pd, all, s) && s.free == [] && Space(s'.mem, first, pd, s'.own, s'.mapped) && Apart(s'.own, s'.free)
    requires Distinct(s'.free) && Accounted(all, s'.own, s'.free, s'.gone) && s'.mapped == s.mapped
    requires Tables(s.mem, pd) <= Tables(s'.mem, pd) && |s'.gone| == |s.gone|
    ensures s'.free == []
  {
    hide Space, Apart, Distinct, Tables, UserPart, Elems, Prefix;
    OwnSize(s.mem, first, pd, s.own, s.mapped);
    OwnSize(s'.mem, first, pd, s'.own, s'.mapped);
    SubsetSize(Tables(s.mem, pd), Tables(s'.mem, pd));
    AccountedSize(all, s.own, s.free, s.gone);
    AccountedSize(all, s'.own, s'.free, s'.gone);
  }

  lemma AccountedSize(all: set<nat>, own: map<nat, Use>, free: seq<nat>, gone: set<nat>)
    requires Accounted(all, own, free, gone) && Apart(own, free) && Distinct(free)
    ensures |all| == |own| + |free| + |gone|
  {
    DistinctSize(free);
    assert own.Keys !! Elems(free);
    assert |own.Keys + Elems(free)| == |own| + |free|;
    assert |own.Keys + Elems(free) + gone| == |own.Keys + Elems(free)| + |gone|;
  }

  /** Without a free page allocuvm neither leaves a hole nor loses a page. */
  lemma NoneToLose(tables: set<nat>, n: nat, n': nat)
    requires n <= n'
    ensures !Hole(0, tables, n, n') && !Loses(0, tables, n, n') && (Cost(tables, n, n') <= 0 ==> n == n')
  {
    hide Cost;
    CostGrows(tables, n, n, n');
    CostNone(tables, n);
    forall k | n < k <= n' ensures !Hole(0, tables, n, k) {
      NoHole(0, tables, n, n, k);
    }
  }

  lemma CostNone(tables: set<nat>, n: nat)
    ensures Cost(tables, n, n) == 0
  {
    RegionsNone(n);
    assert tables + {} == tables;
  }

  lemma GrownSound(first: nat, pd: nat, all: set<nat>, s: Snap, n: Word, r: Word, lost: set<nat>, s': Snap)
    requires Sound(first, pd, all, s) && n > s.sz && Space(s'.mem, first, pd, s'.own, s'.mapped) && Apart(s'.own, s'.free)
    requires Distinct(s'.free) && Accounted(all, s'.own, s'.free, s'.gone)
    requires if n >= KERNBASE then r == 0 && s'.mapped == s.mapped && lost == {}
             else Allocated(|s.free|, Tables(s.mem, pd), s.mapped, Up(s.sz), Up(n), n, r, lost, s'.mapped)
    requires r != 0 && lost != {} ==> s'.free == []
    requires Tables(s.mem, pd) <= Tables(s'.mem, pd) && s'.gone == s.gone + lost && |s'.gone| == |s.gone| + |lost|
    requires PtesKept(s.mem, s'.mem, pd, s.mapped) && Zeroed(s'.mem, pd, s'.mapped - s.mapped) && UsersKept(s.mem, s'.mem, s.own)
    requires s'.sz == (if r != 0 then r else s.sz) && s'.hole == (s.hole || (r != 0 && lost != {}))
    ensures Sound(first, pd, all, s') && Follows(pd, s, n, s')
  {
    hide Space, Tables, Cost, Zeroed, PtesKept, UsersKept, Apart, Distinct, Carried, Accounted, Range;
    GrownPages(pd, s, n, r, lost, s');
    if s'.hole && s.hole {
      StillNone(first, pd, all, s, s');
    }
    SpaceMapped(s.mem, first, pd, s.own, s.mapped);
    forall v | 0 <= v < Have(s') && v < VPAGES
      ensures Carried(pd, s, s', v)
    {
      GrownHolds(first, pd, s, s', v);
    }
  }

  /** The pages after allocuvm, and what has become of the size. */
  lemma GrownPages(pd: nat, s: Snap, n: Word, r: Word, lost: set<nat>, s': Snap)
    requires Prefix(s.mapped, Have(s)) && s.sz <= KERNBASE && n > s.sz && (s.hole ==> Up(s.sz) > 0 && s.free == [])
    requires if n >= KERNBASE then r == 0 && s'.mapped == s.mapped && lost == {}
             else Allocated(|s.free|, Tables(s.mem, pd), s.mapped, Up(s.sz), Up(n), n, r, lost, s'.mapped)
    requires s'.gone == s.gone + lost && |s'.gone| == |s.gone| + |lost|
    requires s'.sz == (if r != 0 then r else s.sz) && s'.hole == (s.hole || (r != 0 && lost != {}))
    ensures Sized(pd, s, n, s') && s'.sz <= KERNBASE && Prefix(s'.mapped, Have(s')) && (s'.hole ==> Up(s'.sz) > 0)
    ensures s.hole ==> s'.mapped == s.mapped && lost == {}
  {
    hide Tables, Cost, Hole, Loses;
    if n < KERNBASE {
      UpLess(s.sz, n);
      if s.hole {
        NoneToLose(Tables(s.mem, pd), Up(s.sz), Up(n));
      } else if r != 0 && lost != {} {
        HoleGrows(|s.free|, Tables(s.mem, pd), Up(s.sz), Up(n));
      }
    }
  }

  lemma GrownHolds(first: nat, pd: nat, s: Snap, s': Snap, v: nat)
    requires Space(s.mem, first, pd, s.own, s.mapped) && Prefix(s.mapped, Have(s)) && Prefix(s'.mapped, Have(s')) && v < Have(s')
    requires PtesKept(s.mem, s'.mem, pd, s.mapped) && Zeroed(s'.mem, pd, s'.mapped - s.mapped) && UsersKept(s.mem, s'.mem, s.own)
    ensures v < USER && Carried(pd, s, s', v)
  {
    hide Pte, Up, Have;
    if v < Have(s) {
      assert UserOwned(s.mem, pd, s.own, v);
    }
  }

  lemma AccountedShrunk(all: set<nat>, own: map<nat, Use>, free: seq<nat>, own': map<nat, Use>, free': seq<nat>, gone: set<nat>)
    requires Accounted(all, own, free, gone) && Shrunk(own, free, own', free')
    ensures Accounted(all, own', free', gone)
  {
    hide Elems;
    forall b | b in gone ensures b !in own'.Keys && b !in Elems(free') {
      assert b !in own.Keys + Elems(free);
    }
  }

  lemma ShrunkSound(first: nat, pd: nat, all: set<nat>, s: Snap, n: Word, s': Snap)
    requires Sound(first, pd, all, s) && n <= s.sz && Space(s'.mem, first, pd, s'.own, s'.mapped) && Apart(s'.own, s'.free)
    requires Distinct(s'.free) && Shrunk(s.own, s.free, s'.own, s'.free) && |s.mem| == PAGES && pd < PAGES
    requires s'.mapped == if n < s.sz then s.mapped - Swept(s.mem[pd], Up(n), Up(s.sz)) else s.mapped
    requires Steady(s.mem, s'.mem, s'.own, s'.free) && PtesKept(s.mem, s'.mem, pd, s'.mapped) && s'.sz == n && s'.gone == s.gone
    requires Tables(s'.mem, pd) == Tables(s.mem, pd) && s'.hole == HoleNow(s, n)
    ensures Sound(first, pd, all, s') && Follows(pd, s, n, s')
  {
    hide Space, Swept, Apart, Distinct, Prefix, Steady, PtesKept, Elems, Carried, Tables, Cost, Hole, Loses, Accounted, Shrunk, Up;
    AccountedShrunk(all, s.own, s.free, s'.own, s'.free, s.gone);
    if n < s.sz {
      UpLess(n, s.sz);
      PrefixShrinks(s.mem, first, pd, s.own, s.mapped, Have(s), s.sz, n);
    }
    if s'.hole {
      if n < s.sz {
        SweptNone(s.mem[pd], Up(n));
      }
      StillNone(first, pd, all, s, s');
    }
    forall v | 0 <= v < Have(s') && v < VPAGES
      ensures Carried(pd, s, s', v)
    {
      ShrunkHolds(first, pd, s, s', v);
    }
  }

  lemma SweptNone(dir: Page, a: nat)
    requires a <= VPAGES
    ensures Swept(dir, a, a) == {}
  {
  }

  lemma ShrunkHolds(first: nat, pd: nat, s: Snap, s': Snap, v: nat)
    requires Space(s'.mem, first, pd, s'.own, s'.mapped) && Apart(s'.own, s'.free) && Prefix(s'.mapped, Have(s')) && v < Have(s')
    requires |s.mem| == PAGES && Steady(s.mem, s'.mem, s'.own, s'.free) && PtesKept(s.mem, s'.mem, pd, s'.mapped) && Have(s') <= Have(s)
    ensures v < USER && Carried(pd, s, s', v)
  {
    hide Pte;
    assert UserOwned(s'.mem, pd, s'.own, v);
  }

  ghost predicate History(first: nat, pd: nat, all: set<nat>, sizes: seq<Word>, log: seq<Snap>, plenty: bool) {
    && 0 < |log| <= |sizes| + 1 && (forall k :: 0 <= k < |log| ==> Sound(first, pd, all, log[k]))
    && (forall k :: 0 <= k < |log| - 1 ==> Follows(pd, log[k], sizes[k], log[k + 1]))
    && (plenty ==> forall k :: 0 <= k < |log| - 1 && sizes[k] < KERNBASE ==> log[k + 1].sz == sizes[k])
    && (plenty ==> forall k :: 0 <= k < |log| ==> !log[k].hole)
  }

  lemma HistoryFirst(first: nat, pd: nat, all: set<nat>, sizes: seq<Word>, log: seq<Snap>, plenty: bool)
    requires |log| == 1 && Sound(first, pd, all, log[0]) && !log[0].hole
    ensures History(first, pd, all, sizes, log, plenty)
  {
    hide Sound, Follows;
  }

  lemma HistoryLast(first: nat, pd: nat, all: set<nat>, sizes: seq<Word>, log: seq<Snap>, plenty: bool)
    requires History(first, pd, all, sizes, log, plenty)
    ensures |log| > 0 && Sound(first, pd, all, log[|log| - 1])
  {
  }

  lemma HistoryNext(first: nat, pd: nat, all: set<nat>, sizes: seq<Word>, log: seq<Snap>, plenty: bool, s: Snap)
    requires 0 < |log| <= |sizes| && History(first, pd, all, sizes, log, plenty) && Sound(first, pd, all, s)
    requires Follows(pd, log[|log| - 1], sizes[|log| - 1], s)
    requires plenty ==> !s.hole && (sizes[|log| - 1] < KERNBASE ==> s.sz == sizes[|log| - 1])
    ensures History(first, pd, all, sizes, log + [s], plenty)
  {
    hide Sound, Follows;
  }

  lemma HistoryAll(first: nat, pd: nat, all: set<nat>, sizes: seq<Word>, log: seq<Snap>, plenty: bool)
    requires History(first, pd, all, sizes, log, plenty)
    ensures |log| <= |sizes| + 1 && forall k :: 0 <= k < |log| ==> Sound(first, pd, all, log[k])
    ensures forall k :: 0 <= k < |log| - 1 ==> Follows(pd, log[k], sizes[k], log[k + 1])
    ensures plenty ==> forall k :: 0 <= k < |log| - 1 && sizes[k] < KERNBASE ==> log[k + 1].sz == sizes[k]
    ensures plenty ==> forall k :: 0 <= k < |log| ==> !log[k].hole
  {
  }

  lemma AllAccounted(was: seq<nat>, own: map<nat, Use>, free: seq<nat>, gone: set<nat>)
    requires Accounted(Elems(was), own, free, gone) && Apart(own, free) && Distinct(free) && Distinct(was)
    ensures |own| + |free| + |gone| == |was|
  {
    hide Elems, Apart, Distinct;
    var none: map<nat, Use> := map[];
    NoneApart(none, was);
    SameNumber(none, was, own, free, gone);
  }

  lemma NoneApart(own: map<nat, Use>, free: seq<nat>)
    requires own == map[]
    ensures Apart(own, free) && own.Keys + Elems(free) == Elems(free)
  {
  }

  lemma AccountedBack(all: set<nat>, own: map<nat, Use>, was: seq<nat>, free: seq<nat>, gone: set<nat>)
    requires Accounted(all, own, was, gone) && Elems(free) == Elems(was) + own.Keys
    ensures Elems(free) + gone == all
  {
    hide Elems;
  }

  /** There are pages for all of these sizes, none of more than `most` pages. */
  ghost predicate Plenty(sizes: seq<Word>, most: nat, count: nat) {
    && most <= USER && count >= CopyCost(most)
    && forall k :: 0 <= k < |sizes| ==> sizes[k] < KERNBASE ==> Up(sizes[k]) <= most
  }

  function MostTables(most: nat): set<nat> {
    KernelTables() + Range(0, (most + ENTRIES - 1) / ENTRIES)
  }

  ghost predicate InPlenty(mem: seq<Page>, pd: nat, sz: Word, most: nat) {
    Up(sz) <= most && Tables(mem, pd) <= MostTables(most)
  }

  lemma PlentyStart(sizes: seq<Word>, most: nat, count: nat, mem: seq<Page>, pd: nat)
    ensures Plenty(sizes, most, count) ==> count >= 65
    ensures Tables(mem, pd) == KernelTables() ==> InPlenty(mem, pd, 0, most)
  {
    hide Tables, KernelTables;
  }

  lemma MostTablesSize(most: nat)
    requires most <= USER
    ensures |MostTables(most)| + most + 1 == CopyCost(most)
  {
    hide KernelTables;
    KernelTablesSize();
    var r := (most + ENTRIES - 1) / ENTRIES;
    RangeSize(0, r);
    assert KernelTables() !! Range(0, r) by {
      KernelTablesHigh();
    }
    assert |KernelTables() + Range(0, r)| == |KernelTables()| + |Range(0, r)|;
  }

  lemma KernelTablesHigh()
    ensures forall i :: i in KernelTables() ==> i >= USER / ENTRIES
  {
  }

  lemma RegionsMost(n: nat, n': nat, most: nat)
    requires n' <= most
    ensures Regions(n, n') <= MostTables(most)
  {
    hide KernelTables;
  }

  /** With plenty of pages allocuvm has enough. */
  lemma PlentyGrow(sizes: seq<Word>, most: nat, was: seq<nat>, first: nat, pd: nat, s: Snap, k: nat)
    requires k < |sizes| && Sound(first, pd, Elems(was), s) && Distinct(was)
    ensures Plenty(sizes, most, |was|) && s.gone == {} && !s.hole && InPlenty(s.mem, pd, s.sz, most) && s.sz < sizes[k] < KERNBASE ==>
              |s.free| >= Cost(Tables(s.mem, pd), Up(s.sz), Up(sizes[k]))
  {
    hide Space, Tables, Regions, MostTables, Prefix, Apart, Distinct, Elems, Up, CopyCost, Accounted;
    if Plenty(sizes, most, |was|) && s.gone == {} && !s.hole && InPlenty(s.mem, pd, s.sz, most) && s.sz < sizes[k] < KERNBASE {
      OwnSize(s.mem, first, pd, s.own, s.mapped);
      PrefixSize(s.mapped, Up(s.sz));
      AllAccounted(was, s.own, s.free, s.gone);
      var t := Tables(s.mem, pd);
      RegionsMost(Up(s.sz), Up(sizes[k]), most);
      SubsetSize(t + Regions(Up(s.sz), Up(sizes[k])), MostTables(most));
      MostTablesSize(most);
    }
  }

  lemma PrefixSize(mapped: set<nat>, n: nat)
    requires Prefix(mapped, n)
    ensures |UserPart(mapped)| == n
  {
    RangeSize(0, n);
    assert UserPart(mapped) == Range(0, n);
  }

  lemma PlentyKept(sizes: seq<Word>, most: nat, count: nat, s: Snap, pd: nat, k: nat, s': Snap)
    requires k < |sizes| && s.sz <= KERNBASE && Follows(pd, s, sizes[k], s')
    requires Plenty(sizes, most, count) && s.gone == {} && !s.hole && InPlenty(s.mem, pd, s.sz, most) && s.sz < sizes[k] < KERNBASE ==>
               |s.free| >= Cost(Tables(s.mem, pd), Up(s.sz), Up(sizes[k]))
    requires Tables(s'.mem, pd) <= Tables(s.mem, pd) + Regions(Up(s.sz), Up(sizes[k]))
    requires sizes[k] >= KERNBASE && sizes[k] > s.sz ==> s'.mem == s.mem
    ensures Plenty(sizes, most, count) && s.gone == {} && !s.hole && InPlenty(s.mem, pd, s.sz, most) ==>
              InPlenty(s'.mem, pd, s'.sz, most) && s'.gone == {} && !s'.hole && (sizes[k] < KERNBASE ==> s'.sz == sizes[k])
  {
    hide Tables, Regions, MostTables, Cost, Carried, Hole, Loses;
    if Plenty(sizes, most, count) && InPlenty(s.mem, pd, s.sz, most) && Up(sizes[k]) <= most {
      RegionsMost(Up(s.sz), Up(sizes[k]), most);
    }
  }

  // ----- copyuvm -----

  /** What copyuvm comes to: the copy, 0, or its panic. */
  datatype Copying = Whole | NoMemory | NotThere

  /** The first of n pages that is not mapped, or n. */
  ghost function FirstHole(mapped: set<nat>, n: nat): (m: nat)
    ensures m <= n && (m < n ==> m !in mapped) && forall v :: 0 <= v < m ==> v in mapped
  {
    if n == 0 then 0
    else
      var m := FirstHole(mapped, n - 1);
      if m < n - 1 || n - 1 !in mapped then m else n
  }

  /** With count pages free, n pages to copy and the first that is not there at m. */
  function CopyOutcome(count: nat, m: nat, n: nat): Copying {
    if count < CopyCost(m) then NoMemory else if m < n then NotThere else Whole
  }

  /** The pages lost: all if setupkvm fails, and one if the last page free was for the first
      page of a region. */
  ghost function CopyLoss(count: nat, m: nat): nat {
    if count < 65 then count else if exists i :: 0 <= i < m && LastFree(count, i) then 1 else 0
  }

  predicate LastFree(count: nat, i: nat) {
    i % ENTRIES == 0 && count == CopyCost(i) + 1
  }

  lemma AllLost(free: seq<nat>, m: nat)
    requires Distinct(free) && |free| < 65
    ensures |Elems(free)| == CopyLoss(|free|, m)
  {
    hide Elems;
    DistinctSize(free);
  }

  lemma CopyThere(mem: seq<Page>, first: nat, pd: nat, own: map<nat, Use>, mapped: set<nat>, i: nat, n: nat)
    requires Space(mem, first, pd, own, mapped) && i < n <= USER && i <= FirstHole(mapped, n)
    ensures |mem| == PAGES && pd < PAGES && (Here(Pte(mem, pd, i)) <==> i < FirstHole(mapped, n))
    ensures i < FirstHole(mapped, n) ==>
              UpTo(mapped, i + 1) && UpTo(KernelPages() + Range(0, i), i) && i !in KernelPages() + Range(0, i)
  {
    hide FirstHole, Pte;
  }

  /** Out of memory at page i: the page was lost exactly if CopyLoss says so. */
  lemma CopyFails(count: nat, m: nat, i: nat, lost: bool)
    requires i < m && if lost then count == CopyCost(i) + 1 && CopyCost(i + 1) == CopyCost(i) + 2 else count == CopyCost(i)
    ensures count < CopyCost(m) && CopyLoss(count, m) == if lost then 1 else 0
  {
    CopyCostGrows(i + 1, m);
    CopyCostGrows(0, i);
    if lost {
      assert i % ENTRIES == 0 by {
        CopyCostStep(i);
      }
      assert LastFree(count, i);
    } else {
      forall j | 0 <= j < m ensures !LastFree(count, j) {
        if j < i {
          CopyCostStep(j);
          CopyCostGrows(j + 1, i);
        } else {
          CopyCostGrows(i, j);
        }
      }
    }
  }

  lemma CopyCostStep(i: nat)
    ensures CopyCost(i + 1) == CopyCost(i) + if i % ENTRIES == 0 then 2 else 1
  {
  }

  /** The first n virtual pages of d hold what those of pd hold. */
  ghost predicate Copied(mem: seq<Page>, pd: nat, d: nat, n: nat) {
    && |mem| == PAGES && pd < PAGES && n <= VPAGES
    && forall v :: 0 <= v < n ==> Frame(Pte(mem, pd, v)) < PAGES && HoldsPage(mem, d, v, mem[Frame(Pte(mem, pd, v))])
  }

  ghost predicate Untouched(mem: seq<Page>, mem': seq<Page>, own: map<nat, Use>) {
    |mem| == |mem'| == PAGES && forall b :: b in own && b < PAGES ==> mem'[b] == mem[b]
  }

  /** Two address spaces share no page. */
  ghost predicate Beside(own: map<nat, Use>, ownd: map<nat, Use>) {
    own.Keys !! ownd.Keys
  }

  /** The new address space has taken its pages from those that were free. */
  ghost predicate TakenFrom(ownd: map<nat, Use>, free: seq<nat>, was: seq<nat>) {
    ownd.Keys + Elems(free) == Elems(was)
  }

  lemma TakenThen(ownd0: map<nat, Use>, free0: seq<nat>, ownd: map<nat, Use>, free: seq<nat>, was: seq<nat>)
    requires TakenFrom(ownd0, free0, was) && ownd.Keys + Elems(free) == ownd0.Keys + Elems(free0)
    ensures TakenFrom(ownd, free, was)
  {
  }

  /** copyuvm gives back what it took, all but a page that mappages lost. */
  lemma TakenBack(ownd: map<nat, Use>, free0: seq<nat>, free1: seq<nat>, free: seq<nat>, was: seq<nat>, gone: set<nat>, lost: bool)
    requires TakenFrom(ownd, free0, was) && Elems(free) == Elems(free1) + ownd.Keys && Apart(ownd, free0)
    requires if lost then |free0| == 1 && free1 == [] && gone == Elems(free0) else free1 == free0 && gone == {}
    ensures Elems(free) + gone == Elems(was) && gone !! Elems(free) && |gone| == if lost then 1 else 0
  {
    if lost {
      OnePage(free0);
    }
  }

  /** The pages of a copy of n user pages: the directory, 64 tables for the kernel, the
      pages, and their tables. */
  function CopyCost(n: nat): nat {
    65 + n + (n + ENTRIES - 1) / ENTRIES
  }

  lemma CopyCostGrows(i: nat, n: nat)
    requires i <= n
    ensures 65 <= CopyCost(i) <= CopyCost(n)
  {
  }

  lemma RegionsCount(i: nat)
    requires i <= USER
    ensures |KernelTables() + Regions(0, i)| == 64 + (i + ENTRIES - 1) / ENTRIES
    ensures i / ENTRIES !in KernelTables() + Regions(0, i) && i < USER ==> CopyCost(i + 1) == CopyCost(i) + 2
  {
    hide KernelTables, Regions;
    KernelTablesSize();
    var r := (i + ENTRIES - 1) / ENTRIES;
    RegionsBelow(i, r);
    RangeSize(0, r);
    assert |KernelTables() + Range(0, r)| == |KernelTables()| + |Range(0, r)|;
  }

  lemma RegionsBelow(i: nat, r: nat)
    requires i <= USER && r == (i + ENTRIES - 1) / ENTRIES
    ensures Regions(0, i) == Range(0, r) && Range(0, r) !! KernelTables()
    ensures i / ENTRIES !in KernelTables() + Range(0, r) ==> i % ENTRIES == 0
    ensures i % ENTRIES == 0 ==> CopyCost(i + 1) == CopyCost(i) + 2
  {
  }

  /** What the copy has taken so far. */
  lemma CopySpent(mem: seq<Page>, head: Word, first: nat, d: nat, ownd: map<nat, Use>, free: seq<nat>, was: seq<nat>, i: nat)
    requires Space(mem, first, d, ownd, KernelPages() + Range(0, i)) && Tables(mem, d) == KernelTables() + Regions(0, i)
    requires TakenFrom(ownd, free, was) && Apart(ownd, free) && Distinct(was) && Chain(mem, head, free, first) && i <= USER
    ensures |was| == |free| + CopyCost(i)
    ensures i / ENTRIES !in Tables(mem, d) && i < USER ==> CopyCost(i + 1) == CopyCost(i) + 2
  {
    hide Space, Tables, Regions, KernelTables, KernelPages, UserPart, Chain;
    OwnSize(mem, first, d, ownd, KernelPages() + Range(0, i));
    RegionsCount(i);
    CopyUsers(i);
    ChainPages(mem, head, free, first);
    var none: map<nat, Use> := map[];
    SameNumber(none, was, ownd, free, {});
  }

  lemma CopyUsers(i: nat)
    requires i <= USER
    ensures |UserPart(KernelPages() + Range(0, i))| == i
  {
    hide Range;
    RangeSize(0, i);
    assert UserPart(KernelPages() + Range(0, i)) == Range(0, i);
  }

  /** The parent's pages are neither free nor the child's. */
  lemma ParentSteady(mem: seq<Page>, mem': seq<Page>, first: nat, pd: nat, own: map<nat, Use>, mapped: set<nat>, free: seq<nat>,
                     ownd: map<nat, Use>)
    requires Space(mem, first, pd, own, mapped) && Apart(own, free) && Beside(own, ownd) && Steady(mem, mem', ownd, free)
    ensures Space(mem', first, pd, own, mapped) && Untouched(mem, mem', own)
  {
    SpacePages(mem, first, pd, own, mapped);
    SpaceElsewhere(mem, mem', first, pd, own, mapped);
  }

  lemma NoElems(was: seq<nat>)
    ensures Elems([]) + Elems(was) == Elems(was) && Elems(was) !! Elems([])
  {
  }

  lemma ParentAlone(mem: seq<Page>, mem': seq<Page>, first: nat, pd: nat, own: map<nat, Use>, mapped: set<nat>, free: seq<nat>)
    requires Space(mem, first, pd, own, mapped) && Apart(own, free) && |mem'| == PAGES
    requires forall b :: 0 <= b < PAGES && b !in free ==> mem'[b] == mem[b]
    ensures Space(mem', first, pd, own, mapped) && Untouched(mem, mem', own) && Apart(own, [])
  {
    SpacePages(mem, first, pd, own, mapped);
    SpaceElsewhere(mem, mem', first, pd, own, mapped);
  }

  lemma RangeNone()
    ensures KernelPages() + Range(0, 0) == KernelPages()
  {
  }

  lemma CopiedNone(mem: seq<Page>, pd: nat, d: nat)
    requires |mem| == PAGES && pd < PAGES
    ensures Copied(mem, pd, d, 0)
  {
  }

  ghost predicate UpTo(mapped: set<nat>, n: nat) {
    forall v :: 0 <= v < n ==> v in mapped
  }

  lemma MappedHas(mem: seq<Page>, first: nat, pd: nat, own: map<nat, Use>, mapped: set<nat>, v: nat)
    requires Space(mem, first, pd, own, mapped) && UpTo(mapped, v + 1) && v < USER
    ensures |mem| == PAGES && pd < PAGES && HasTable(mem, pd, v) && TableOf(mem, pd, v) < PAGES
    ensures mem[TableOf(mem, pd, v)][v % ENTRIES] == Pte(mem, pd, v) && Frame(Pte(mem, pd, v)) < PAGES
  {
    SpaceTableOf(mem, first, pd, own, mapped, v);
    assert UserOwned(mem, pd, own, v);
  }

  lemma UntouchedNone(mem: seq<Page>, own: map<nat, Use>)
    requires |mem| == PAGES
    ensures Untouched(mem, mem, own)
  {
  }

  lemma UntouchedThen(mem: seq<Page>, mem1: seq<Page>, mem2: seq<Page>, own: map<nat, Use>)
    requires Untouched(mem, mem1, own) && Untouched(mem1, mem2, own)
    ensures Untouched(mem, mem2, own)
  {
  }

  /** setupkvm takes free pages only. */
  lemma ParentStays(mem: seq<Page>, mem': seq<Page>, first: nat, pd: nat, own: map<nat, Use>, mapped: set<nat>, free: seq<nat>,
                    ownd: map<nat, Use>, free': seq<nat>)
    requires Space(mem, first, pd, own, mapped) && Apart(own, free) && |mem'| == PAGES
    requires forall b :: 0 <= b < PAGES && b !in free ==> mem'[b] == mem[b]
    requires ownd.Keys + Elems(free') == Elems(free)
    ensures TakenFrom(ownd, free', free)
    ensures Space(mem', first, pd, own, mapped) && Apart(own, free') && Untouched(mem, mem', own) && Beside(own, ownd)
  {
    SpacePages(mem, first, pd, own, mapped);
    SpaceElsewhere(mem, mem', first, pd, own, mapped);
    forall b | b in own ensures b !in free' && b !in ownd {
      assert b !in Elems(free);
      assert b !in Elems(free');
    }
  }

  lemma ParentNext(mem: seq<Page>, mem0: seq<Page>, mem': seq<Page>, first: nat, pd: nat, own: map<nat, Use>, mapped: set<nat>,
                   free0: seq<nat>, ownd0: map<nat, Use>, ownd: map<nat, Use>, free': seq<nat>, d: nat)
    requires Space(mem0, first, pd, own, mapped) && Apart(own, free0) && Beside(own, ownd0) && Untouched(mem, mem0, own)
    requires Grew(ownd0, free0, ownd, free') && Steady(mem0, mem', ownd0, free0)
    ensures Space(mem', first, pd, own, mapped) && Apart(own, free') && Untouched(mem, mem', own) && Beside(own, ownd)
    ensures ownd.Keys + Elems(free') == ownd0.Keys + Elems(free0)
    ensures SamePtes(mem0, mem', pd)
  {
    SpacePages(mem0, first, pd, own, mapped);
    forall b | b in own ensures mem'[b] == mem0[b] && b !in free' && b !in ownd {
      assert b !in ownd0.Keys + Elems(free0);
      assert b !in ownd.Keys + Elems(free');
      assert b !in Elems(free');
    }
    SpaceElsewhere(mem0, mem', first, pd, own, mapped);
  }

  lemma ParentKept(mem: seq<Page>, mem0: seq<Page>, mem': seq<Page>, head: Word, first: nat, pd: nat, own: map<nat, Use>,
                   mapped: set<nat>, free0: seq<nat>, ownd: map<nat, Use>, free': seq<nat>)
    requires Space(mem0, first, pd, own, mapped) && Apart(own, free0) && Beside(own, ownd) && Untouched(mem, mem0, own)
    requires |mem'| == PAGES && forall b :: 0 <= b < PAGES && b !in ownd && b !in free0 ==> mem'[b] == mem0[b]
    requires Elems(free') == Elems(free0) + ownd.Keys
    ensures Space(mem', first, pd, own, mapped) && Apart(own, free') && Untouched(mem, mem', own)
  {
    SpacePages(mem0, first, pd, own, mapped);
    SpaceElsewhere(mem0, mem', first, pd, own, mapped);
    forall b | b in own ensures b !in free' {
      assert b !in Elems(free0) + ownd.Keys;
      assert b !in Elems(free');
    }
  }

  lemma CopiedNext(mem: seq<Page>, mem': seq<Page>, first: nat, pd: nat, d: nat, own: map<nat, Use>, mapped: set<nat>,
                   ownd: map<nat, Use>, free: seq<nat>, now: set<nat>, i: nat)
    requires Space(mem, first, pd, own, mapped) && Untouched(mem, mem', own) && SamePtes(mem, mem', pd) && Copied(mem, pd, d, i)
    requires i < USER && UpTo(mapped, i + 1) && UpTo(now, i)
    requires Space(mem, first, d, ownd, now) && Apart(ownd, free) && Steady(mem, mem', ownd, free) && PtesKept(mem, mem', d, now)
    requires Frame(Pte(mem, pd, i)) < PAGES && HoldsPage(mem', d, i, mem[Frame(Pte(mem, pd, i))])
    ensures Copied(mem', pd, d, i + 1)
  {
    hide Pte;
    forall v | 0 <= v < i + 1 ensures Frame(Pte(mem', pd, v)) < PAGES && HoldsPage(mem', d, v, mem'[Frame(Pte(mem', pd, v))]) {
      assert UserOwned(mem, pd, own, v);
      if v < i {
        assert HoldsPage(mem, d, v, mem[Frame(Pte(mem, pd, v))]);
        assert UserOwned(mem, d, ownd, v);
      }
    }
  }

  lemma NothingYet(mem: seq<Page>, pd: nat, own: map<nat, Use>, free: seq<nat>, mapped: set<nat>)
    requires |mem| == PAGES && pd < PAGES
    ensures PtesKept(mem, mem, pd, mapped) && Zeroed(mem, pd, {}) && UsersKept(mem, mem, own) && Moved(own, free, own, free)
    ensures mapped - mapped == {}
  {
  }
}
