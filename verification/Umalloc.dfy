/** The Kernighan and Ritchie allocator of umalloc.c. Addresses count units of
    sizeof(Header); the free list is circular through ptr, starting at the static
    header base. The invariant kept by every run is Valid: the list is in address
    order without overlapping or adjacent blocks, and free and live blocks together
    are exactly the units obtained from sbrk, each unit in one block. */
module Umalloc {
  import opened Options

  const HEADER: nat := 8
  const MINCORE: nat := 4096

  datatype Chunk = Chunk(addr: nat, size: nat) {
    function End(): nat {
      addr + size
    }

    predicate Has(u: nat) {
      addr <= u < addr + size
    }
  }

  // ----- The free list as a sequence of chunks -----

  /** In address order, with a gap after every chunk, and only the first one empty. */
  predicate Sorted(f: seq<Chunk>) {
    && (forall i, j :: 0 <= i < j < |f| ==> f[i].End() < f[j].addr)
    && (forall i :: 1 <= i < |f| ==> f[i].size > 0)
    && |f| > 0 && f[0].size == 0
  }

  ghost predicate Covers(f: seq<Chunk>, u: nat) {
    exists i :: 0 <= i < |f| && f[i].Has(u)
  }

  /** The last chunk that starts before a. */
  predicate IsPred(f: seq<Chunk>, a: nat, k: nat) {
    k < |f| && f[k].addr < a && (k + 1 < |f| ==> a < f[k + 1].addr)
  }

  /** c lies in the gap after chunk k. */
  predicate FitsAfter(f: seq<Chunk>, c: Chunk, k: nat) {
    IsPred(f, c.addr, k) && c.size > 0 && f[k].End() <= c.addr && (k + 1 < |f| ==> c.End() <= f[k + 1].addr)
  }

  /** c with the chunk after it, if they touch. */
  function WithNext(f: seq<Chunk>, c: Chunk, k: nat): Chunk {
    if k + 1 < |f| && c.End() == f[k + 1].addr then Chunk(c.addr, c.size + f[k + 1].size) else c
  }

  /** What stays in the list after c. */
  function Rest(f: seq<Chunk>, c: Chunk, k: nat): seq<Chunk>
    requires k < |f|
  {
    if k + 1 < |f| && c.End() == f[k + 1].addr then f[k + 2..] else f[k + 1..]
  }

  /** The list with c freed into it after chunk k, joined with its neighbours. */
  function Insert(f: seq<Chunk>, c: Chunk, k: nat): seq<Chunk>
    requires k < |f|
  {
    var d := WithNext(f, c, k);
    if f[k].End() == c.addr then f[..k] + [Chunk(f[k].addr, f[k].size + d.size)] + Rest(f, c, k)
    else f[..k + 1] + [d] + Rest(f, c, k)
  }

  lemma CoversConcat(a: seq<Chunk>, b: seq<Chunk>, u: nat)
    ensures Covers(a + b, u) <==> Covers(a, u) || Covers(b, u)
  {
    if Covers(b, u) {
      var i :| 0 <= i < |b| && b[i].Has(u);
      assert (a + b)[|a| + i].Has(u);
    }
    if Covers(a, u) {
      var i :| 0 <= i < |a| && a[i].Has(u);
      assert (a + b)[i].Has(u);
    }
  }

  lemma CoversSplit(f: seq<Chunk>, k: nat, u: nat)
    requires k < |f|
    ensures Covers(f, u) <==> Covers(f[..k], u) || f[k].Has(u) || Covers(f[k + 1..], u)
  {
    assert f == f[..k] + ([f[k]] + f[k + 1..]);
    CoversConcat(f[..k], [f[k]] + f[k + 1..], u);
    CoversConcat([f[k]], f[k + 1..], u);
    assert Covers([f[k]], u) <==> [f[k]][0].Has(u);
  }

  lemma CoversPut(a: seq<Chunk>, m: Chunk, b: seq<Chunk>, u: nat)
    ensures Covers(a + [m] + b, u) <==> Covers(a, u) || m.Has(u) || Covers(b, u)
  {
    var f := a + [m] + b;
    assert f[..|a|] == a && f[|a|] == m && f[|a| + 1..] == b;
    CoversSplit(f, |a|, u);
  }

  lemma SortedPut(a: seq<Chunk>, m: Chunk, b: seq<Chunk>)
    requires forall i, j :: 0 <= i < j < |a| ==> a[i].End() < a[j].addr
    requires forall i, j :: 0 <= i < j < |b| ==> b[i].End() < b[j].addr
    requires forall i :: 0 <= i < |a| ==> a[i].End() < m.addr
    requires forall i :: 0 <= i < |b| ==> m.End() < b[i].addr && b[i].size > 0
    requires forall i :: 1 <= i < |a| ==> a[i].size > 0
    requires if a == [] then m.size == 0 else a[0].size == 0 && m.size > 0
    ensures Sorted(a + [m] + b)
  {
    var f := a + [m] + b;
    forall i, j | 0 <= i < j < |f| ensures f[i].End() < f[j].addr {
      if i < |a| && j > |a| {
        assert a[i].End() < m.addr && m.End() < b[j - |a| - 1].addr;
      }
    }
  }

  lemma RestSorted(f: seq<Chunk>, c: Chunk, k: nat)
    requires Sorted(f) && FitsAfter(f, c, k)
    ensures var rest, d := Rest(f, c, k), WithNext(f, c, k);
            && (forall i, j :: 0 <= i < j < |rest| ==> rest[i].End() < rest[j].addr)
            && (forall i :: 0 <= i < |rest| ==> d.End() < rest[i].addr && rest[i].size > 0)
  {
  }

  lemma InsertSorted(f: seq<Chunk>, c: Chunk, k: nat)
    requires Sorted(f) && FitsAfter(f, c, k)
    ensures Sorted(Insert(f, c, k)) && Insert(f, c, k)[0] == f[0]
    ensures |Insert(f, c, k)| > k && Insert(f, c, k)[k].addr == f[k].addr
  {
    hide Rest, WithNext;
    RestSorted(f, c, k);
    var rest, d := Rest(f, c, k), WithNext(f, c, k);
    NextGrows(f, c, k);
    if f[k].End() == c.addr {
      SortedPut(f[..k], Chunk(f[k].addr, f[k].size + d.size), rest);
    } else {
      SortedPut(f[..k + 1], d, rest);
    }
  }

  lemma NextGrows(f: seq<Chunk>, c: Chunk, k: nat)
    ensures WithNext(f, c, k).addr == c.addr && WithNext(f, c, k).size >= c.size
  {
  }

  /** Freeing adds exactly the freed units. */
  lemma InsertCovers(f: seq<Chunk>, c: Chunk, k: nat, u: nat)
    requires Sorted(f) && FitsAfter(f, c, k)
    ensures Covers(Insert(f, c, k), u) <==> Covers(f, u) || c.Has(u)
  {
    hide Covers, Sorted;
    var rest := Rest(f, c, k);
    var d := WithNext(f, c, k);
    assert d.Has(u) || Covers(rest, u) <==> c.Has(u) || Covers(f[k + 1..], u) by {
      if k + 1 < |f| {
        CoversSplit(f[k + 1..], 0, u);
        assert f[k + 1..][1..] == f[k + 2..] && f[k + 1..][..0] == [];
        CoversNone(u);
      }
    }
    CoversSplit(f, k, u);
    if f[k].End() == c.addr {
      CoversPut(f[..k], Chunk(f[k].addr, f[k].size + d.size), rest, u);
    } else {
      CoversPut(f[..k + 1], d, rest, u);
      CoversSplit(f[..k + 1], k, u);
      assert f[..k + 1][..k] == f[..k] && f[..k + 1][k + 1..] == [];
      CoversNone(u);
    }
  }

  lemma CoversNone(u: nat)
    ensures !Covers([], u)
  {
  }

  // ----- Taking a chunk -----

  /** Chunk i gives up its last n units, or leaves the list if it has no more. */
  function Take(f: seq<Chunk>, i: nat, n: nat): seq<Chunk>
    requires i < |f| && n <= f[i].size
  {
    if f[i].size == n then f[..i] + f[i + 1..] else f[..i] + [Chunk(f[i].addr, f[i].size - n)] + f[i + 1..]
  }

  function Taken(f: seq<Chunk>, i: nat, n: nat): Chunk
    requires i < |f| && n <= f[i].size
  {
    Chunk(f[i].End() - n, n)
  }

  lemma TakeSorted(f: seq<Chunk>, i: nat, n: nat)
    requires Sorted(f) && 0 < i < |f| && 0 < n <= f[i].size
    ensures Sorted(Take(f, i, n)) && Take(f, i, n)[..i] == f[..i]
  {
    if f[i].size > n {
      SortedPut(f[..i], Chunk(f[i].addr, f[i].size - n), f[i + 1..]);
    } else {
      RemoveSorted(f, i);
    }
  }

  lemma RemoveSorted(f: seq<Chunk>, i: nat)
    requires Sorted(f) && 0 < i < |f|
    ensures Sorted(f[..i] + f[i + 1..])
  {
    var g := f[..i] + f[i + 1..];
    forall j | 0 <= j < |g| ensures g[j] == f[Skip(i, j)] {
    }
    forall p, q | 0 <= p < q < |g| ensures g[p].End() < g[q].addr {
      assert g[p] == f[Skip(i, p)] && g[q] == f[Skip(i, q)];
    }
    forall j | 1 <= j < |g| ensures g[j].size > 0 {
      assert g[j] == f[Skip(i, j)];
    }
  }

  /** Where element j was before element i was removed. */
  function Skip(i: nat, j: nat): nat {
    if j < i then j else j + 1
  }

  /** The units of the list are those of what is left and of what was taken. */
  lemma TakeCovers(f: seq<Chunk>, i: nat, n: nat, u: nat)
    requires Sorted(f) && 0 < i < |f| && 0 < n <= f[i].size
    ensures Covers(f, u) <==> Covers(Take(f, i, n), u) || Taken(f, i, n).Has(u)
    ensures !(Covers(Take(f, i, n), u) && Taken(f, i, n).Has(u))
  {
    CoversSplit(f, i, u);
    if f[i].size == n {
      CoversConcat(f[..i], f[i + 1..], u);
    } else {
      CoversPut(f[..i], Chunk(f[i].addr, f[i].size - n), f[i + 1..], u);
    }
    if Taken(f, i, n).Has(u) {
      assert forall j :: 0 <= j < |f| && j != i ==> !f[j].Has(u);
    }
  }

  // ----- The list in memory -----

  function Succ(n: nat, i: nat): (j: nat)
    requires i < n
    ensures j < n
  {
    if i + 1 < n then i + 1 else 0
  }

  /** The headers at the chunks' addresses are the circular list f. */
  predicate Linked(ptr: map<nat, nat>, size: map<nat, nat>, f: seq<Chunk>) {
    forall i :: 0 <= i < |f| ==> LinkedAt(ptr, size, f, i)
  }

  predicate LinkedAt(ptr: map<nat, nat>, size: map<nat, nat>, f: seq<Chunk>, i: nat)
    requires i < |f|
  {
    && f[i].addr in ptr && f[i].addr in size
    && size[f[i].addr] == f[i].size && ptr[f[i].addr] == f[Succ(|f|, i)].addr
  }

  ghost predicate Live(live: map<nat, nat>, u: nat) {
    exists a :: a in live && Chunk(a, live[a]).Has(u)
  }

  /** Free and live blocks are the arena, each unit in one of them. */
  ghost predicate Partition(f: seq<Chunk>, live: map<nat, nat>, arena: set<nat>) {
    && (forall u: nat :: u in arena <==> Covers(f, u) || Live(live, u))
    && (forall u: nat :: !(Covers(f, u) && Live(live, u)))
    && (forall a, b :: a in live && b in live && a < b ==> a + live[a] <= b)
    && (forall a :: a in live ==> live[a] > 0)
  }

  /** The stores of free once it has found the header p before bp. */
  function FreedSize(ptr: map<nat, nat>, size: map<nat, nat>, p: nat, bp: nat): map<nat, nat>
    requires p in ptr && bp in size && p in size && ptr[p] in size
  {
    var size1 := if bp + size[bp] == ptr[p] then size[bp := size[bp] + size[ptr[p]]] else size;
    if p + size1[p] == bp then size1[p := size1[p] + size1[bp]] else size1
  }

  function FreedPtr(ptr: map<nat, nat>, size: map<nat, nat>, p: nat, bp: nat): map<nat, nat>
    requires p in ptr && bp in size && p in size && ptr[p] in ptr && p != bp
  {
    var next := if bp + size[bp] == ptr[p] then ptr[ptr[p]] else ptr[p];
    if p + size[p] == bp then ptr[bp := next][p := next] else ptr[bp := next][p := bp]
  }

  /** After free's stores the headers are the list with the block in its place. */
  lemma FreedLinked(ptr: map<nat, nat>, size: map<nat, nat>, f: seq<Chunk>, c: Chunk, k: nat)
    requires Sorted(f) && FitsAfter(f, c, k) && Linked(ptr, size, f) && c.addr in size && size[c.addr] == c.size
    ensures LinkedAt(ptr, size, f, k) && LinkedAt(ptr, size, f, Succ(|f|, k))
    ensures Linked(FreedPtr(ptr, size, f[k].addr, c.addr), FreedSize(ptr, size, f[k].addr, c.addr), Insert(f, c, k))
  {
    assert LinkedAt(ptr, size, f, k) && LinkedAt(ptr, size, f, Succ(|f|, k));
    forall i | 0 <= i < |Insert(f, c, k)|
      ensures LinkedAt(FreedPtr(ptr, size, f[k].addr, c.addr), FreedSize(ptr, size, f[k].addr, c.addr), Insert(f, c, k), i)
    {
      FreedLinkedAt(ptr, size, f, c, k, i);
    }
  }

  /** Where the chunks of f and the freed one are in Insert(f, c, k). */
  lemma InsertShape(f: seq<Chunk>, c: Chunk, k: nat)
    requires Sorted(f) && FitsAfter(f, c, k)
    ensures var g, q := Insert(f, c, k), if f[k].End() == c.addr then k else k + 1;
            var j := if k + 1 < |f| && c.End() == f[k + 1].addr then k + 2 else k + 1;
            && |g| == q + 1 + |f| - j
            && (forall i :: 0 <= i < k ==> g[i] == f[i])
            && (forall i :: q < i < |g| ==> g[i] == f[i - q - 1 + j])
            && g[k].addr == f[k].addr && (q > k ==> g[k] == f[k] && g[q] == WithNext(f, c, k))
            && (q == k ==> g[k].size == f[k].size + WithNext(f, c, k).size)
  {
    hide WithNext, Sorted;
  }

  lemma Elsewhere(f: seq<Chunk>, c: Chunk, k: nat, x: nat)
    requires Sorted(f) && FitsAfter(f, c, k) && x < |f|
    ensures f[x].addr != c.addr && (x != k ==> f[x].addr != f[k].addr)
  {
  }

  /** A header that free did not touch. */
  lemma UntouchedAt(ptr: map<nat, nat>, size: map<nat, nat>, f: seq<Chunk>, c: Chunk, k: nat, x: nat)
    requires Sorted(f) && FitsAfter(f, c, k) && Linked(ptr, size, f) && c.addr in size && x < |f| && x != k
    requires LinkedAt(ptr, size, f, k) && LinkedAt(ptr, size, f, Succ(|f|, k))
    ensures var a := f[x].addr;
            var ptr', size' := FreedPtr(ptr, size, f[k].addr, c.addr), FreedSize(ptr, size, f[k].addr, c.addr);
            a in ptr' && a in size' && ptr'[a] == f[Succ(|f|, x)].addr && size'[a] == f[x].size
  {
    Elsewhere(f, c, k, x);
    Elsewhere(f, c, k, k);
    assert LinkedAt(ptr, size, f, x);
    hide Sorted;
  }

  lemma FreedLinkedAt(ptr: map<nat, nat>, size: map<nat, nat>, f: seq<Chunk>, c: Chunk, k: nat, i: nat)
    requires Sorted(f) && FitsAfter(f, c, k) && Linked(ptr, size, f) && c.addr in size && size[c.addr] == c.size
    requires LinkedAt(ptr, size, f, k) && LinkedAt(ptr, size, f, Succ(|f|, k)) && i < |Insert(f, c, k)|
    ensures LinkedAt(FreedPtr(ptr, size, f[k].addr, c.addr), FreedSize(ptr, size, f[k].addr, c.addr), Insert(f, c, k), i)
  {
    hide Insert, Linked, Sorted, FreedPtr, FreedSize, WithNext;
    InsertShape(f, c, k);
    NextGrows(f, c, k);
    var g := Insert(f, c, k);
    assert g[0].addr == f[0].addr;
    var q := if f[k].End() == c.addr then k else k + 1;
    var j := if k + 1 < |f| && c.End() == f[k + 1].addr then k + 2 else k + 1;
    if i < k {
      UntouchedAt(ptr, size, f, c, k, i);
    } else if i > q {
      UntouchedAt(ptr, size, f, c, k, i - q - 1 + j);
    } else {
      TouchedAt(ptr, size, f, c, k);
    }
  }

  /** The headers of the merged block, and of the chunk before it if that is separate. */
  lemma TouchedAt(ptr: map<nat, nat>, size: map<nat, nat>, f: seq<Chunk>, c: Chunk, k: nat)
    requires Sorted(f) && FitsAfter(f, c, k) && c.addr in size && size[c.addr] == c.size
    requires LinkedAt(ptr, size, f, k) && LinkedAt(ptr, size, f, Succ(|f|, k))
    ensures var p, d := f[k].addr, WithNext(f, c, k);
            var ptr', size' := FreedPtr(ptr, size, p, c.addr), FreedSize(ptr, size, p, c.addr);
            var j := if k + 1 < |f| && c.End() == f[k + 1].addr then k + 2 else k + 1;
            var next := if j < |f| then f[j].addr else f[0].addr;
            if f[k].End() == c.addr then
              p in ptr' && p in size' && ptr'[p] == next && size'[p] == f[k].size + d.size
            else
              && p in ptr' && p in size' && ptr'[p] == c.addr && size'[p] == f[k].size
              && c.addr in ptr' && c.addr in size' && ptr'[c.addr] == next && size'[c.addr] == d.size
  {
  }

  /** The chunk before a, where free has to put a block at a. */
  function Pred(f: seq<Chunk>, a: nat): (k: nat)
    requires |f| > 0
    ensures k < |f|
  {
    if |f| == 1 || f[|f| - 1].addr < a then |f| - 1 else Pred(f[..|f| - 1], a)
  }

  lemma {:induction false} PredIsPred(f: seq<Chunk>, a: nat)
    requires Sorted(f) && f[0].addr < a && forall i :: 0 <= i < |f| ==> f[i].addr != a
    ensures IsPred(f, a, Pred(f, a))
  {
    if |f| > 1 && f[|f| - 1].addr > a {
      PredIsPred(f[..|f| - 1], a);
    }
  }

  /** free's two tests for the end of its walk at p. */
  predicate Stops(bp: nat, p: nat, next: nat) {
    (bp > p && bp < next) || (p >= next && (bp > p || bp < next))
  }

  /** The walk ends at the right place and nowhere else on the circle. */
  lemma WalkStops(f: seq<Chunk>, bp: nat, k: nat, j: nat)
    requires Sorted(f) && f[0].addr < bp && IsPred(f, bp, k) && j < |f|
    ensures Stops(bp, f[j].addr, f[Succ(|f|, j)].addr) <==> j == k
  {
  }

  /** A live block lies in a gap of the free list. */
  lemma LiveFits(f: seq<Chunk>, live: map<nat, nat>, arena: set<nat>, a: nat)
    requires Sorted(f) && Partition(f, live, arena) && a in live && forall u :: u in arena ==> f[0].addr < u
    ensures FitsAfter(f, Chunk(a, live[a]), Pred(f, a)) && f[0].addr < a
  {
    var c := Chunk(a, live[a]);
    assert Live(live, a) by {
      assert c.Has(a);
    }
    forall i | 1 <= i < |f| ensures !f[i].Has(a) && !c.Has(f[i].addr) {
      assert f[i].Has(a) ==> Covers(f, a);
      assert f[i].Has(f[i].addr) && Covers(f, f[i].addr);
      assert c.Has(f[i].addr) ==> Live(live, f[i].addr);
    }
    PredIsPred(f, a);
  }

  lemma LiveWithout(live: map<nat, nat>, a: nat, u: nat)
    requires a in live && (forall x, y :: x in live && y in live && x < y ==> x + live[x] <= y)
    ensures Live(live - {a}, u) <==> Live(live, u) && !Chunk(a, live[a]).Has(u)
  {
    if Live(live, u) && !Chunk(a, live[a]).Has(u) {
      var b :| b in live && Chunk(b, live[b]).Has(u);
      assert b in live - {a};
    }
  }

  lemma LiveWith(live: map<nat, nat>, a: nat, n: nat, u: nat)
    requires a !in live
    ensures Live(live[a := n], u) <==> Live(live, u) || Chunk(a, n).Has(u)
  {
    var more := live[a := n];
    if Live(live, u) {
      var b :| b in live && Chunk(b, live[b]).Has(u);
      assert b in more && more[b] == live[b];
    }
    if Chunk(a, n).Has(u) {
      assert a in more && more[a] == n;
    }
  }

  /** free moves a block's units from the live to the free ones. */
  lemma FreePartition(f: seq<Chunk>, live: map<nat, nat>, arena: set<nat>, a: nat, k: nat)
    requires Sorted(f) && Partition(f, live, arena) && a in live && FitsAfter(f, Chunk(a, live[a]), k)
    ensures Partition(Insert(f, Chunk(a, live[a]), k), live - {a}, arena)
  {
    var c := Chunk(a, live[a]);
    var g, rest := Insert(f, c, k), live - {a};
    hide Insert, Sorted, Covers, Live;
    forall u: nat
      ensures u in arena <==> Covers(g, u) || Live(rest, u)
      ensures !(Covers(g, u) && Live(rest, u))
    {
      InsertCovers(f, c, k, u);
      LiveWithout(live, a, u);
      LiveHas(live, a, u);
    }
  }

  lemma LiveHas(live: map<nat, nat>, a: nat, u: nat)
    requires a in live
    ensures Chunk(a, live[a]).Has(u) ==> Live(live, u)
  {
  }

  /** malloc moves a block's units from the free to the live ones. */
  lemma TakePartition(f: seq<Chunk>, live: map<nat, nat>, arena: set<nat>, i: nat, n: nat)
    requires Sorted(f) && Partition(f, live, arena) && 0 < i < |f| && 0 < n <= f[i].size
    ensures var t := Taken(f, i, n); t.addr !in live && Partition(Take(f, i, n), live[t.addr := n], arena)
  {
    var t := Taken(f, i, n);
    var g := Take(f, i, n);
    TakenApart(f, live, arena, i, n);
    hide Take, Sorted, Covers, Live;
    forall u: nat
      ensures u in arena <==> Covers(g, u) || Live(live[t.addr := n], u)
      ensures !(Covers(g, u) && Live(live[t.addr := n], u))
    {
      TakeCovers(f, i, n, u);
      LiveWith(live, t.addr, n, u);
    }
  }

  lemma TakenApart(f: seq<Chunk>, live: map<nat, nat>, arena: set<nat>, i: nat, n: nat)
    requires Sorted(f) && Partition(f, live, arena) && 0 < i < |f| && 0 < n <= f[i].size
    ensures var t := Taken(f, i, n); forall b :: b in live ==> b + live[b] <= t.addr || t.End() <= b
  {
    var t := Taken(f, i, n);
    forall b | b in live ensures b + live[b] <= t.addr || t.End() <= b {
      if b < t.End() && t.addr < b + live[b] {
        var u := if b < t.addr then t.addr else b;
        assert f[i].Has(u) && Chunk(b, live[b]).Has(u);
        assert Covers(f, u) && Live(live, u);
      }
    }
  }

  function Units(a: nat, n: nat): (us: set<nat>)
    ensures forall u :: u in us <==> a <= u < a + n
  {
    if n == 0 then {} else Units(a, n - 1) + {a + n - 1}
  }

  /** A block fresh from sbrk, above everything, is live until morecore frees it. */
  lemma CorePartition(f: seq<Chunk>, live: map<nat, nat>, arena: set<nat>, a: nat, n: nat)
    requires Partition(f, live, arena) && n > 0 && forall u :: u in arena ==> u < a
    ensures a !in live && Partition(f, live[a := n], arena + Units(a, n))
  {
    forall b | b in live ensures b + live[b] <= a {
      assert Chunk(b, live[b]).Has(b + live[b] - 1);
      assert Live(live, b + live[b] - 1);
    }
    hide Covers, Live;
    forall u: nat {
      LiveWith(live, a, n, u);
    }
  }

  /** The header units malloc asks for: the bytes rounded up, and one for the header. */
  function NUnits(nbytes: nat): (n: nat)
    ensures n > 0 && (n - 1) * HEADER >= nbytes && (n - 1) * HEADER < nbytes + HEADER
  {
    (nbytes + HEADER - 1) / HEADER + 1
  }

  function CoreUnits(nu: nat): (n: nat)
    ensures n >= nu && n > 0
  {
    if nu < MINCORE then MINCORE else nu
  }

  lemma TakeWholeAt(f: seq<Chunk>, i: nat, j: nat)
    requires Sorted(f) && 0 < i < |f| && j < |f| - 1
    ensures |Take(f, i, f[i].size)| == |f| - 1 && Skip(i, j) < |f| && Take(f, i, f[i].size)[j] == f[Skip(i, j)]
  {
  }

  lemma TakenWhole(ptr: map<nat, nat>, size: map<nat, nat>, f: seq<Chunk>, i: nat)
    requires Sorted(f) && Linked(ptr, size, f) && 0 < i < |f| && LinkedAt(ptr, size, f, i)
    ensures Linked(ptr[f[i - 1].addr := ptr[f[i].addr]], size, Take(f, i, f[i].size))
  {
    hide Take;
    var g, ptr' := Take(f, i, f[i].size), ptr[f[i - 1].addr := ptr[f[i].addr]];
    TakeWholeAt(f, i, 0);
    forall j | 0 <= j < |g| ensures LinkedAt(ptr', size, g, j) {
      var x := Skip(i, j);
      TakeWholeAt(f, i, j);
      TakeWholeAt(f, i, Succ(|g|, j));
      assert LinkedAt(ptr, size, f, x);
      assert x != i - 1 ==> f[x].addr != f[i - 1].addr;
    }
  }

  lemma TakenPart(ptr: map<nat, nat>, size: map<nat, nat>, f: seq<Chunk>, i: nat, n: nat)
    requires Sorted(f) && Linked(ptr, size, f) && 0 < i < |f| && 0 < n < f[i].size
    ensures Linked(ptr, size[f[i].addr := f[i].size - n][Taken(f, i, n).addr := n], Take(f, i, n))
  {
    var g, size' := Take(f, i, n), size[f[i].addr := f[i].size - n][Taken(f, i, n).addr := n];
    forall j | 0 <= j < |g| ensures LinkedAt(ptr, size', g, j) {
      assert LinkedAt(ptr, size, f, j);
      assert g[j].addr == f[j].addr && (j != i ==> g[j] == f[j] && f[j].addr != f[i].addr);
      assert g[Succ(|g|, j)].addr == f[Succ(|f|, j)].addr;
      assert f[j].addr != Taken(f, i, n).addr;
    }
  }

  /** t steps round a circle of n from f. */
  function Round(n: nat, f: nat, t: nat): (i: nat)
    requires f < n && t <= n
    ensures i < n
  {
    if f + t < n then f + t else f + t - n
  }

  /** A full circle passes every chunk. */
  lemma RoundAll(n: nat, f: nat, i: nat)
    requires f < n && i < n
    ensures exists t :: 1 <= t <= n && Round(n, f, t) == i
  {
    assert Round(n, f, if i > f then i - f else i - f + n) == i;
  }

  lemma InsertHas(f: seq<Chunk>, c: Chunk, k: nat)
    requires Sorted(f) && FitsAfter(f, c, k)
    ensures exists i :: 0 <= i < |Insert(f, c, k)| && Insert(f, c, k)[i].size >= c.size
  {
    InsertShape(f, c, k);
    NextGrows(f, c, k);
    assert Insert(f, c, k)[if f[k].End() == c.addr then k else k + 1].size >= c.size;
  }

  class Allocator {
    const base: nat
    var freep: nat
    var ptr: map<nat, nat>
    var size: map<nat, nat>

    ghost var list: seq<Chunk>
    ghost var live: map<nat, nat>
    ghost var arena: set<nat>

    constructor (b: nat)
      requires b > 0
      ensures Valid() && base == b && live == map[] && arena == {}
    {
      base, freep, ptr, size := b, 0, map[], map[];
      list, live, arena := [], map[], {};
    }

    /** freep is zero until the first malloc. */
    ghost predicate Valid()
      reads this
    {
      && base > 0 && (forall u :: u in arena ==> base < u)
      && Partition(list, live, arena)
      && (forall a :: a in live ==> a in size && size[a] == live[a])
      && if freep == 0 then list == [] else Ready()
    }

    ghost predicate Ready()
      reads this
    {
      && Sorted(list) && list[0].addr == base && Linked(ptr, size, list)
      && exists i :: 0 <= i < |list| && list[i].addr == freep
    }

    /** The loop of free: the header after which the block at bp belongs. */
    method FindPlace(bp: nat) returns (p: nat)
      requires Ready() && IsPred(list, bp, Pred(list, bp)) && base < bp
      ensures p == list[Pred(list, bp)].addr
    {
      hide Sorted, Pred, IsPred;
      ghost var n, k := |list|, Pred(list, bp);
      ghost var j :| 0 <= j < n && list[j].addr == freep;
      p := freep;
      assert LinkedAt(ptr, size, list, j);
      WalkStops(list, bp, k, j);
      while !(bp > p && bp < ptr[p])
        invariant 0 <= j < n && p == list[j].addr && p in ptr && ptr[p] == list[Succ(n, j)].addr
        invariant Stops(bp, p, ptr[p]) <==> j == k
        decreases if j <= k then k - j else k - j + n
      {
        if p >= ptr[p] && (bp > p || bp < ptr[p]) {
          break;
        }
        assert LinkedAt(ptr, size, list, Succ(n, j));
        p, j := ptr[p], Succ(n, j);
        WalkStops(list, bp, k, j);
      }
    }

    /** free(ap) of the block whose header is at bp == ap - 1. */
    method Free(bp: nat)
      requires Valid() && bp in live && freep != 0
      modifies this`freep, this`ptr, this`size, this`list, this`live
      ensures Valid() && freep != 0 && live == old(live) - {bp}
      ensures list == Insert(old(list), Chunk(bp, old(live)[bp]), Pred(old(list), bp))
      ensures freep == old(list)[Pred(old(list), bp)].addr
    {
      hide Insert, Sorted, Covers, Live, Pred, FreedSize, FreedPtr, FitsAfter;
      ghost var c, k := Chunk(bp, live[bp]), Pred(list, bp);
      LiveFits(list, live, arena, bp);
      FitsPred(list, c, k);
      var p := FindPlace(bp);
      FreedLinked(ptr, size, list, c, k);
      InsertSorted(list, c, k);
      FreePartition(list, live, arena, bp, k);
      FreeNotLive(list, live, arena, k);
      SizesKept(ptr, size, p, bp, live);
      StoreFreed(p, bp);
      freep := p;
      list, live := Insert(list, c, k), live - {bp};
      assert list[k].addr == freep;
    }

    /** morecore; sbrk answered core. */
    method Morecore(nu: nat, core: Option<nat>) returns (ok: bool)
      requires Valid() && freep != 0 && nu > 0
      requires core.Some? ==> base < core.value && forall u :: u in arena ==> u < core.value
      modifies this
      ensures Valid() && freep != 0 && live == old(live) && ok == core.Some?
      ensures !ok ==> arena == old(arena) && list == old(list) && freep == old(freep)
      ensures ok ==> arena == old(arena) + Units(core.value, CoreUnits(nu))
      ensures ok ==> exists i :: 0 <= i < |list| && list[i].size >= nu
    {
      if core.None? {
        return false;
      }
      hide Insert, Sorted, Covers, Live, Pred, FitsAfter, Linked, Partition;
      var n, hp := CoreUnits(nu), core.value;
      AddCore(hp, n);
      LiveFits(list, live, arena, hp);
      InsertHas(list, Chunk(hp, n), Pred(list, hp));
      Free(hp);
      MapRestored(old(live), hp, n);
      return true;
    }

    /** The new memory as one live block. */
    method AddCore(hp: nat, n: nat)
      requires Valid() && freep != 0 && n > 0 && base < hp && forall u :: u in arena ==> u < hp
      modifies this`size, this`live, this`arena
      ensures Valid() && old(hp !in live) && live == old(live)[hp := n] && arena == old(arena) + Units(hp, n)
    {
      hide Sorted, Covers, Live, Linked, LinkedAt;
      CorePartition(list, live, arena, hp, n);
      SizeElsewhere(live, list, arena, hp);
      NewHeader(ptr, size, list, hp, n);
      size := size[hp := n];
      live, arena := live[hp := n], arena + Units(hp, n);
    }

    /** malloc's stores when the chunk p after prevp is large enough. */
    method TakeFrom(prevp: nat, p: nat, n: nat, ghost i: nat) returns (ap: nat)
      requires Valid() && freep != 0 && 0 < i < |list| && 0 < n <= list[i].size
      requires prevp == list[i - 1].addr && p == list[i].addr
      modifies this`freep, this`ptr, this`size, this`list, this`live
      ensures Valid() && freep != 0 && list == Take(old(list), i, n)
      ensures var t := Taken(old(list), i, n);
              ap == t.addr + 1 && t.addr !in old(live) && live == old(live)[t.addr := n]
    {
      hide Covers, Live, Take, Linked, Sorted, Partition;
      AtLink(ptr, size, list, i);
      AtLink(ptr, size, list, i - 1);
      TakeSorted(list, i, n);
      TakePartition(list, live, arena, i, n);
      FreeNotLive(list, live, arena, i);
      TakeStart(list, i, n);
      AboveBase(list, i - 1);
      ghost var t := Taken(list, i, n);
      if list[i].size == n {
        TakenWhole(ptr, size, list, i);
      } else {
        TakenPart(ptr, size, list, i, n);
      }
      ap := StoreTaken(prevp, p, n);
      freep := prevp;
      list, live := Take(list, i, n), live[t.addr := n];
    }

    method StoreTaken(prevp: nat, p: nat, n: nat) returns (ap: nat)
      requires p in size && p in ptr && size[p] >= n
      modifies this`ptr, this`size
      ensures old(size[p]) == n ==> ptr == old(ptr)[prevp := old(ptr)[p]] && size == old(size)
      ensures old(size[p]) > n ==> ptr == old(ptr) && size == old(size)[p := old(size)[p] - n][ap - 1 := n]
      ensures ap == p + old(size)[p] - n + 1
    {
      if size[p] == n {
        ptr := ptr[prevp := ptr[p]];
        ap := p + 1;
      } else {
        size := size[p := size[p] - n];
        var q := p + size[p];
        size := size[q := n];
        ap := q + 1;
      }
    }

    /** malloc; core is what sbrk answers if malloc asks it, which it does at most once. */
    method Malloc(nbytes: nat, core: Option<nat>) returns (r: Option<nat>)
      requires Valid()
      requires core.Some? ==> base < core.value && forall u :: u in arena ==> u < core.value
      modifies this
      ensures Valid() && freep != 0
      ensures r.None? ==> core.None? && live == old(live) && arena == old(arena)
      ensures r.None? ==> AllBelow(list, NUnits(nbytes))
      ensures r.Some? ==> r.value > 0 && r.value - 1 !in old(live) && live == old(live)[r.value - 1 := NUnits(nbytes)]
      ensures r.Some? ==>
                || arena == old(arena)
                || (core.Some? && arena == old(arena) + Units(core.value, CoreUnits(NUnits(nbytes)))
                    && AllBelow(old(list), NUnits(nbytes)))
    {
      hide Covers, Live, Take, Taken, Linked, Sorted, Partition, CoreUnits, Units, Insert, Round, Cursor, Passed, IndexOf;
      var nunits := NUnits(nbytes);
      if freep == 0 {
        Start();
      }
      ghost var f, t, grown := IndexOf(list, freep), 1, false;
      CursorStart(ptr, size, list, f, nunits);
      var prevp := freep;
      var p := ptr[prevp];
      while true
        invariant Valid() && freep != 0 && live == old(live)
        invariant 0 <= f < |list| && list[f].addr == freep && 1 <= t <= |list| && Cursor(list, f, t, p, prevp)
        invariant Passed(list, f, t, nunits)
        invariant !grown ==> arena == old(arena) && (list == old(list) || (old(list) == [] && |list| == 1))
        invariant grown ==> !AllBelow(list, nunits) && AllBelow(old(list), nunits)
        invariant grown ==> core.Some? && arena == old(arena) + Units(core.value, CoreUnits(nunits))
        decreases !grown, |list| - t
      {
        CursorAt(ptr, size, list, f, t, p, prevp);
        if size[p] >= nunits {
          var ap := TakeFrom(prevp, p, nunits, Round(|list|, f, t));
          return Some(ap);
        }
        PassOne(list, f, t, nunits);
        if p == freep {
          SameIndex(list, Round(|list|, f, t), f);
          AllPassed(list, f, t, nunits);
          assert !grown;
          var ok := Morecore(nunits, core);
          if !ok {
            return None;
          }
          p, grown, t := freep, true, 0;
          f := IndexOf(list, freep);
          CursorStart(ptr, size, list, f, nunits);
        } else {
          CursorStep(ptr, size, list, f, t, p, prevp);
        }
        prevp, t := p, t + 1;
        p := ptr[p];
      }
    }

    /** malloc's first call: a list of the empty header base alone. */
    method Start()
      requires Valid() && freep == 0
      modifies this`freep, this`ptr, this`size, this`list
      ensures Valid() && freep == base && list == [Chunk(base, 0)]
    {
      assert base !in live by {
        BaseNotLive(base, live, list, arena);
      }
      freep := base;
      ptr := ptr[base := base];
      size := size[base := 0];
      list := [Chunk(base, 0)];
      assert list[0].addr == freep;
    }

    /** The two joins of free. */
    method StoreFreed(p: nat, bp: nat)
      requires p in ptr && p in size && bp in size && ptr[p] in size && ptr[p] in ptr && p != bp
      modifies this`ptr, this`size
      ensures size == FreedSize(old(ptr), old(size), p, bp) && ptr == FreedPtr(old(ptr), old(size), p, bp)
    {
      if bp + size[bp] == ptr[p] {
        size := size[bp := size[bp] + size[ptr[p]]];
        ptr := ptr[bp := ptr[ptr[p]]];
      } else {
        ptr := ptr[bp := ptr[p]];
      }
      if p + size[p] == bp {
        size := size[p := size[p] + size[bp]];
        ptr := ptr[p := ptr[bp]];
      } else {
        ptr := ptr[p := bp];
      }
    }
  }

  lemma FitsPred(f: seq<Chunk>, c: Chunk, k: nat)
    requires FitsAfter(f, c, k)
    requires Sorted(f)
    ensures IsPred(f, c.addr, k) && f[k].addr != c.addr && f[0].addr <= f[k].addr
  {
  }

  lemma SizeElsewhere(live: map<nat, nat>, f: seq<Chunk>, arena: set<nat>, a: nat)
    requires Sorted(f) && Partition(f, live, arena) && f[0].addr < a && forall u :: u in arena ==> u < a
    ensures forall i :: 0 <= i < |f| ==> f[i].addr != a
  {
    forall i | 1 <= i < |f| ensures f[i].addr != a {
      assert f[i].Has(f[i].addr) && Covers(f, f[i].addr);
    }
  }

  lemma NewHeader(ptr: map<nat, nat>, size: map<nat, nat>, f: seq<Chunk>, a: nat, n: nat)
    requires Linked(ptr, size, f) && forall i :: 0 <= i < |f| ==> f[i].addr != a
    ensures Linked(ptr, size[a := n], f)
  {
    var size' := size[a := n];
    forall i | 0 <= i < |f| ensures LinkedAt(ptr, size', f, i) {
      assert LinkedAt(ptr, size, f, i);
    }
  }

  lemma AtLink(ptr: map<nat, nat>, size: map<nat, nat>, f: seq<Chunk>, i: nat)
    requires Linked(ptr, size, f) && i < |f|
    ensures f[i].addr in ptr && f[i].addr in size
    ensures size[f[i].addr] == f[i].size && ptr[f[i].addr] == f[Succ(|f|, i)].addr
  {
    assert LinkedAt(ptr, size, f, i);
  }

  lemma MapRestored(m: map<nat, nat>, a: nat, n: nat)
    requires a !in m
    ensures m[a := n] - {a} == m
  {
  }

  lemma AboveBase(f: seq<Chunk>, i: nat)
    requires Sorted(f) && i < |f|
    ensures f[i].addr >= f[0].addr
  {
  }

  lemma SameIndex(f: seq<Chunk>, i: nat, j: nat)
    requires Sorted(f) && i < |f| && j < |f| && f[i].addr == f[j].addr
    ensures i == j
  {
  }

  predicate AllBelow(f: seq<Chunk>, n: nat) {
    forall i :: 0 <= i < |f| ==> f[i].size < n
  }

  function IndexOf(f: seq<Chunk>, a: nat): (i: nat)
    requires exists i :: 0 <= i < |f| && f[i].addr == a
    ensures i < |f| && f[i].addr == a
  {
    if f[0].addr == a then 0 else 1 + IndexOf(f[1..], a)
  }

  /** malloc's p and prevp, t steps round the list from index f. */
  predicate Cursor(list: seq<Chunk>, f: nat, t: nat, p: nat, prevp: nat)
    requires f < |list| && 1 <= t <= |list|
  {
    p == list[Round(|list|, f, t)].addr && prevp == list[Round(|list|, f, t - 1)].addr
  }

  /** The chunks before p on this round were too small. */
  predicate Passed(list: seq<Chunk>, f: nat, t: nat, n: nat)
    requires f < |list| && t <= |list| + 1
  {
    forall x :: 1 <= x < t ==> list[Round(|list|, f, x)].size < n
  }

  lemma CursorStart(ptr: map<nat, nat>, size: map<nat, nat>, list: seq<Chunk>, f: nat, n: nat)
    requires Linked(ptr, size, list) && f < |list|
    ensures list[f].addr in ptr && Cursor(list, f, 1, ptr[list[f].addr], list[f].addr)
    ensures Passed(list, f, 1, n)
  {
    assert LinkedAt(ptr, size, list, f);
  }

  lemma CursorAt(ptr: map<nat, nat>, size: map<nat, nat>, list: seq<Chunk>, f: nat, t: nat, p: nat, prevp: nat)
    requires Sorted(list) && Linked(ptr, size, list) && f < |list| && 1 <= t <= |list| && Cursor(list, f, t, p, prevp)
    ensures var i := Round(|list|, f, t);
            && p in size && p in ptr && size[p] == list[i].size && p == list[i].addr
            && (list[i].size > 0 ==> i > 0 && prevp == list[i - 1].addr)
  {
    assert LinkedAt(ptr, size, list, Round(|list|, f, t));
  }

  lemma CursorStep(ptr: map<nat, nat>, size: map<nat, nat>, list: seq<Chunk>, f: nat, t: nat, p: nat, prevp: nat)
    requires Linked(ptr, size, list) && f < |list| && 1 <= t <= |list| && Cursor(list, f, t, p, prevp) && p != list[f].addr
    ensures t < |list| && p in ptr && Cursor(list, f, t + 1, ptr[p], p)
  {
    assert LinkedAt(ptr, size, list, Round(|list|, f, t));
  }

  lemma PassOne(list: seq<Chunk>, f: nat, t: nat, n: nat)
    requires f < |list| && 1 <= t <= |list| && Passed(list, f, t, n) && list[Round(|list|, f, t)].size < n
    ensures Passed(list, f, t + 1, n)
  {
  }

  /** When the search is back where it began, it has seen every chunk. */
  lemma AllPassed(list: seq<Chunk>, f: nat, t: nat, n: nat)
    requires f < |list| && 1 <= t <= |list| && Round(|list|, f, t) == f && Passed(list, f, t + 1, n)
    ensures AllBelow(list, n)
  {
    forall i | 0 <= i < |list| ensures list[i].size < n {
      RoundAll(|list|, f, i);
    }
  }

  lemma TakeStart(f: seq<Chunk>, i: nat, n: nat)
    requires 0 < i < |f| && n <= f[i].size
    ensures |Take(f, i, n)| >= i && Take(f, i, n)[0] == f[0] && Take(f, i, n)[i - 1] == f[i - 1]
  {
  }

  lemma BaseNotLive(base: nat, live: map<nat, nat>, f: seq<Chunk>, arena: set<nat>)
    requires Partition(f, live, arena) && forall u :: u in arena ==> base < u
    ensures base !in live
  {
    assert base in live ==> Chunk(base, live[base]).Has(base) && Live(live, base);
  }

  lemma FreeNotLive(f: seq<Chunk>, live: map<nat, nat>, arena: set<nat>, i: nat)
    requires Sorted(f) && Partition(f, live, arena) && i < |f| && forall u :: u in arena ==> f[0].addr < u
    ensures f[i].addr !in live
  {
    var a := f[i].addr;
    assert a in live ==> Chunk(a, live[a]).Has(a) && Live(live, a);
    assert i > 0 ==> f[i].Has(a) && Covers(f, a);
  }

  /** free rewrites no header of another live block. */
  lemma SizesKept(ptr: map<nat, nat>, size: map<nat, nat>, p: nat, bp: nat, live: map<nat, nat>)
    requires p in ptr && bp in size && p in size && ptr[p] in size
    requires forall a :: a in live ==> a in size && size[a] == live[a]
    requires p !in live
    ensures forall a :: a in live && a != bp ==> a in FreedSize(ptr, size, p, bp) && FreedSize(ptr, size, p, bp)[a] == live[a]
  {
  }
}
