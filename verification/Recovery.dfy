/** The redo log of log.c as a function of disk images. A disk is the sequence of its
    sectors and a run is the list of sector writes that reached it; a sector write is
    all-or-nothing, and a crash loses everything else. The main theorem is
    CrashAtomicity: over any number of crashes, also during recovery, what the disk
    stands for is the result of whole transactions. */
module Recovery {
  import opened Blocks
  import opened Counting

  const LOGSIZE: nat := 10

  datatype Write = Write(sector: nat, data: Block)

  type Disk = seq<Block>

  /** Where the log lies: the header at sector `start`, then `nlog - 1` data sectors. */
  datatype Geometry = Geometry(start: nat, nlog: nat) {
    /** The largest number of sectors log_write admits to one transaction. */
    function Limit(): nat
      requires nlog > 0
    {
      if LOGSIZE < nlog - 1 then LOGSIZE else nlog - 1
    }

    predicate Fits(d: Disk) {
      nlog > 0 && |d| == start + nlog <= 0x1_0000_0000
    }
  }

  // ----- Sector writes -----

  predicate InRange(ws: seq<Write>, n: nat) {
    forall w :: w in ws ==> w.sector < n
  }

  function Apply(d: Disk, ws: seq<Write>): (r: Disk)
    requires InRange(ws, |d|)
    ensures |r| == |d|
  {
    if ws == [] then d
    else
      var m := |ws| - 1;
      Apply(d, ws[..m])[ws[m].sector := ws[m].data]
  }

  lemma {:induction false} ApplyConcat(d: Disk, a: seq<Write>, b: seq<Write>)
    requires InRange(a, |d|) && InRange(b, |d|)
    ensures Apply(d, a + b) == Apply(Apply(d, a), b)
  {
    if b == [] {
      assert a + b == a;
    } else {
      var m := |b| - 1;
      ApplyConcat(d, a, b[..m]);
      assert (a + b)[..|a + b| - 1] == a + b[..m];
    }
  }

  lemma ApplyOne(d: Disk, w: Write)
    requires w.sector < |d|
    ensures Apply(d, [w]) == d[w.sector := w.data]
  {
    var ws := [w];
    assert ws[..|ws| - 1] == [];
  }

  lemma ApplyHead(d: Disk, w: Write, ws: seq<Write>, k: nat)
    requires w.sector < |d| && InRange(ws, |d|) && 0 < k <= 1 + |ws|
    ensures Apply(d, ([w] + ws)[..k]) == Apply(d[w.sector := w.data], ws[..k - 1])
  {
    assert ([w] + ws)[..k] == [w] + ws[..k - 1];
    ApplyConcat(d, [w], ws[..k - 1]);
    ApplyOne(d, w);
  }

  lemma ApplyTail(d: Disk, a: seq<Write>, b: seq<Write>, k: nat)
    requires InRange(a, |d|) && InRange(b, |d|) && |a| <= k <= |a + b|
    ensures Apply(d, (a + b)[..k]) == Apply(Apply(d, a), b[..k - |a|])
  {
    assert (a + b)[..k] == a + b[..k - |a|];
    ApplyConcat(d, a, b[..k - |a|]);
  }

  /** Writes leave every sector they do not name alone. */
  lemma {:induction false} ApplyElsewhere(d: Disk, ws: seq<Write>, s: nat)
    requires InRange(ws, |d|) && s < |d|
    requires forall w :: w in ws ==> w.sector != s
    ensures Apply(d, ws)[s] == d[s]
  {
    if ws != [] {
      ApplyElsewhere(d, ws[..|ws| - 1], s);
      assert ws[|ws| - 1] in ws;
    }
  }

  /** A write that no later one overwrites is what the sector holds. */
  lemma {:induction false} ApplyHit(d: Disk, ws: seq<Write>, i: nat)
    requires InRange(ws, |d|) && i < |ws|
    requires forall j :: i < j < |ws| ==> ws[j].sector != ws[i].sector
    ensures Apply(d, ws)[ws[i].sector] == ws[i].data
  {
    if i < |ws| - 1 {
      ApplyHit(d, ws[..|ws| - 1], i);
    }
  }

  // ----- The header block -----

  function HeaderCount(b: Block): Word {
    GetWord(b, 0)
  }

  function HeaderSectors(b: Block): (lh: seq<nat>)
    requires HeaderCount(b) <= LOGSIZE
    ensures |lh| == HeaderCount(b)
  {
    seq(HeaderCount(b), i requires 0 <= i < HeaderCount(b) => GetWord(b, 1 + i))
  }

  predicate Sectors32(lh: seq<nat>) {
    |lh| <= LOGSIZE && forall i :: 0 <= i < |lh| ==> lh[i] < 0x1_0000_0000
  }

  function PutSectors(b: Block, lh: seq<nat>): Block
    requires Sectors32(lh)
  {
    if lh == [] then b
    else SetWord(PutSectors(b, lh[..|lh| - 1]), |lh|, lh[|lh| - 1])
  }

  /** What write_head leaves in the header buffer: the count and that many sector
      numbers; the rest of the block keeps what it held. */
  function HeaderBlock(b: Block, lh: seq<nat>): Block
    requires Sectors32(lh)
  {
    PutSectors(SetWord(b, 0, |lh|), lh)
  }

  lemma {:induction false} PutSectorsAt(b: Block, lh: seq<nat>, i: nat)
    requires Sectors32(lh) && i < WORDS
    ensures GetWord(PutSectors(b, lh), i) == if 1 <= i <= |lh| then lh[i - 1] else GetWord(b, i)
  {
    if lh != [] {
      var m := |lh| - 1;
      PutSectorsAt(b, lh[..m], i);
      GetSetWord(PutSectors(b, lh[..m]), |lh|, lh[m], i);
    }
  }

  /** read_head reads back exactly what write_head wrote. */
  lemma HeaderRoundTrip(b: Block, lh: seq<nat>)
    requires Sectors32(lh)
    ensures HeaderCount(HeaderBlock(b, lh)) == |lh|
    ensures HeaderSectors(HeaderBlock(b, lh)) == lh
  {
    var h := HeaderBlock(b, lh);
    PutSectorsAt(SetWord(b, 0, |lh|), lh, 0);
    GetSetWord(b, 0, |lh|, 0);
    forall i | 0 <= i < |lh| ensures GetWord(h, 1 + i) == lh[i] {
      PutSectorsAt(SetWord(b, 0, |lh|), lh, 1 + i);
    }
  }

  // ----- Logged sectors -----

  predicate Distinct(lh: seq<nat>) {
    forall i, j :: 0 <= i < j < |lh| ==> lh[i] != lh[j]
  }

  /** The slot a sector has in the log, or the first free slot if it has none: where
      the scan of log_write stops. */
  function Slot(lh: seq<nat>, s: nat): (i: nat)
    ensures i <= |lh| && (i < |lh| <==> s in lh) && (i < |lh| ==> lh[i] == s)
  {
    if lh == [] || lh[0] == s then 0 else 1 + Slot(lh[1..], s)
  }

  lemma SlotUnique(lh: seq<nat>, i: nat)
    requires Distinct(lh) && i < |lh|
    ensures Slot(lh, lh[i]) == i
  {
    assert lh[i] in lh;
  }

  /** The sectors of a transaction: no two alike, all before the log. */
  predicate LogList(g: Geometry, lh: seq<nat>)
    requires g.nlog > 0
  {
    |lh| <= g.Limit() && Distinct(lh) && forall i :: 0 <= i < |lh| ==> lh[i] < g.start
  }

  /** A disk that recovery can read: the header names a transaction's sectors. */
  predicate WellFormed(g: Geometry, d: Disk) {
    g.Fits(d) && HeaderCount(d[g.start]) <= g.Limit() && LogList(g, HeaderSectors(d[g.start]))
  }

  predicate Clean(g: Geometry, d: Disk) {
    g.Fits(d) && HeaderCount(d[g.start]) == 0
  }

  function Home(g: Geometry, d: Disk): (h: Disk)
    requires g.Fits(d)
    ensures |h| == g.start
  {
    d[..g.start]
  }

  /** The block a logged sector stands for: its log block if it has one. */
  function Effective(g: Geometry, d: Disk, lh: seq<nat>, s: nat): Block
    requires g.Fits(d) && |lh| <= g.Limit() && s < g.start
  {
    if s in lh then d[g.start + 1 + Slot(lh, s)] else d[s]
  }

  /** The home sectors with the logged ones replaced by their log blocks. */
  function Overlay(g: Geometry, d: Disk, lh: seq<nat>): (h: Disk)
    requires g.Fits(d) && |lh| <= g.Limit()
    ensures |h| == g.start
    ensures forall s :: 0 <= s < g.start ==> h[s] == Effective(g, d, lh, s)
  {
    seq(g.start, s requires 0 <= s < g.start => Effective(g, d, lh, s))
  }

  lemma OverlayAgree(g: Geometry, d: Disk, e: Disk, lh: seq<nat>)
    requires g.Fits(d) && g.Fits(e) && LogList(g, lh)
    requires forall s :: 0 <= s < g.start && s !in lh ==> e[s] == d[s]
    requires forall i :: g.start < i < |d| ==> e[i] == d[i]
    ensures Overlay(g, e, lh) == Overlay(g, d, lh)
  {
  }

  // ----- install_trans and recovery -----

  function InstallWrites(g: Geometry, d: Disk, lh: seq<nat>): (ws: seq<Write>)
    requires g.Fits(d) && LogList(g, lh)
    ensures |ws| == |lh| && InRange(ws, |d|)
    ensures forall i :: 0 <= i < |ws| ==> ws[i] == Write(lh[i], d[g.start + 1 + i])
  {
    seq(|lh|, i requires 0 <= i < |lh| => Write(lh[i], d[g.start + 1 + i]))
  }

  function RecoveryWrites(g: Geometry, d: Disk): (ws: seq<Write>)
    requires WellFormed(g, d)
    ensures InRange(ws, |d|)
  {
    InstallWrites(g, d, HeaderSectors(d[g.start])) + [Write(g.start, SetWord(d[g.start], 0, 0))]
  }

  /** The disk after recover_from_log ran to its end. */
  function Recovered(g: Geometry, d: Disk): Disk
    requires WellFormed(g, d)
  {
    Apply(d, RecoveryWrites(g, d))
  }

  /** What the disk stands for: the home sectors once recovery has run. */
  function Meaning(g: Geometry, d: Disk): (h: Disk)
    requires WellFormed(g, d)
    ensures |h| == g.start
  {
    Home(g, Recovered(g, d))
  }

  /** The disk when install_trans has copied k blocks. */
  lemma InstallPrefix(g: Geometry, d: Disk, lh: seq<nat>, k: nat, s: nat)
    requires g.Fits(d) && LogList(g, lh) && k <= |lh| && s < |d|
    ensures var e := Apply(d, InstallWrites(g, d, lh)[..k]);
            e[s] == if Slot(lh, s) < k then d[g.start + 1 + Slot(lh, s)] else d[s]
  {
    hide Apply, InstallWrites, Slot;
    var ws := InstallWrites(g, d, lh);
    var i := Slot(lh, s);
    if i < k {
      ApplyHit(d, ws[..k], i);
      assert ws[..k][i] == ws[i];
    } else {
      forall j | 0 <= j < k ensures ws[j].sector != s {
        SlotUnique(lh, j);
      }
      ApplyElsewhere(d, ws[..k], s);
    }
  }

  lemma InstallOverlay(g: Geometry, d: Disk, lh: seq<nat>)
    requires g.Fits(d) && LogList(g, lh)
    ensures Home(g, Apply(d, InstallWrites(g, d, lh))) == Overlay(g, d, lh)
  {
    hide Apply, InstallWrites;
    var ws := InstallWrites(g, d, lh);
    assert ws[..|lh|] == ws;
    forall s | 0 <= s < g.start ensures Apply(d, ws)[s] == Overlay(g, d, lh)[s] {
      InstallPrefix(g, d, lh, |lh|, s);
    }
  }

  /** Recovery means: take the logged blocks, all of them. */
  lemma MeaningIsOverlay(g: Geometry, d: Disk)
    requires WellFormed(g, d)
    ensures Meaning(g, d) == Overlay(g, d, HeaderSectors(d[g.start]))
    ensures Clean(g, d) ==> Meaning(g, d) == Home(g, d)
    ensures Clean(g, Recovered(g, d))
  {
    var lh := HeaderSectors(d[g.start]);
    var ws := InstallWrites(g, d, lh);
    var clear := [Write(g.start, SetWord(d[g.start], 0, 0))];
    ApplyConcat(d, ws, clear);
    var e := Apply(d, ws);
    ApplyOne(e, clear[0]);
    InstallOverlay(g, d, lh);
    GetSetWord(d[g.start], 0, 0, 0);
    if Clean(g, d) {
      assert Overlay(g, d, lh) == Home(g, d);
    }
  }

  /** Installing part of the log changes nothing that installing all of it produces. */
  lemma InstallStable(g: Geometry, d: Disk, lh: seq<nat>, k: nat)
    requires g.Fits(d) && LogList(g, lh) && k <= |lh|
    ensures var e := Apply(d, InstallWrites(g, d, lh)[..k]);
            e[g.start] == d[g.start] && Overlay(g, e, lh) == Overlay(g, d, lh)
  {
    var e := Apply(d, InstallWrites(g, d, lh)[..k]);
    forall s | 0 <= s < |d| && s !in lh ensures e[s] == d[s] {
      InstallPrefix(g, d, lh, k, s);
    }
    OverlayAgree(g, d, e, lh);
  }

  /** Stopping recovery after any k of its writes changes nothing that a later
      recovery produces. */
  lemma RecoveryStable(g: Geometry, d: Disk, k: nat)
    requires WellFormed(g, d) && k <= |RecoveryWrites(g, d)|
    ensures var e := Apply(d, RecoveryWrites(g, d)[..k]);
            WellFormed(g, e) && Meaning(g, e) == Meaning(g, d)
            && (k == |RecoveryWrites(g, d)| ==> Clean(g, e))
  {
    var ws := RecoveryWrites(g, d);
    var lh := HeaderSectors(d[g.start]);
    MeaningIsOverlay(g, d);
    if k <= |lh| {
      assert ws[..k] == InstallWrites(g, d, lh)[..k];
      InstallStable(g, d, lh, k);
    } else {
      assert ws[..k] == ws;
    }
    MeaningIsOverlay(g, Apply(d, ws[..k]));
  }

  // ----- A transaction: log_write calls and commit_trans -----

  /** The in-memory header after log_write of sector s (absorption). */
  function Absorb(lh: seq<nat>, s: nat): seq<nat> {
    if s in lh then lh else lh + [s]
  }

  /** A transaction so far; `ok` is false once log_write has panicked. */
  datatype Txn = Txn(lh: seq<nat>, trace: seq<Write>, ok: bool)

  predicate Updates(g: Geometry, us: seq<Write>) {
    g.nlog > 0 && InRange(us, g.start)
  }

  /** A transaction log_write can have built. */
  predicate TxnInv(g: Geometry, t: Txn) {
    && g.nlog > 0 && LogList(g, t.lh)
    && forall w :: w in t.trace ==> g.start < w.sector < g.start + g.nlog
  }

  /** log_write: panic when the transaction is full, else write the block's log slot. */
  function LogOne(g: Geometry, t: Txn, u: Write): (t': Txn)
    requires TxnInv(g, t) && u.sector < g.start
    ensures TxnInv(g, t')
  {
    if !t.ok || |t.lh| >= g.Limit() then t.(ok := false)
    else
      Txn(Absorb(t.lh, u.sector), t.trace + [Write(g.start + 1 + Slot(t.lh, u.sector), u.data)], true)
  }

  function LogAll(g: Geometry, us: seq<Write>): (t: Txn)
    requires Updates(g, us)
    ensures TxnInv(g, t)
    ensures |t.trace| <= |us| && (t.ok ==> |t.trace| == |us|)
  {
    if us == [] then Txn([], [], true) else LogOne(g, LogAll(g, us[..|us| - 1]), us[|us| - 1])
  }

  function Sectors(us: seq<Write>): set<nat> {
    set u | u in us :: u.sector
  }

  lemma SectorsNext(us: seq<Write>, u: Write)
    ensures Sectors(us + [u]) == Sectors(us) + {u.sector}
  {
    forall s | s in Sectors(us) + {u.sector} ensures s in Sectors(us + [u]) {
      if s != u.sector {
        var w :| w in us && w.sector == s;
        assert w in us + [u];
      }
    }
  }

  /** The list has the elements of S, each once. */
  ghost predicate Lists(lh: seq<nat>, S: set<nat>) {
    (set x | x in lh) == S && |lh| == |S|
  }

  lemma AbsorbLists(lh: seq<nat>, S: set<nat>, s: nat)
    requires Lists(lh, S)
    ensures Lists(Absorb(lh, s), S + {s})
  {
    assert s in S <==> s in lh;
    if s in lh {
      assert S + {s} == S;
    }
  }

  lemma LogAllNone(g: Geometry)
    requires Updates(g, [])
    ensures LogAll(g, []).ok && Lists(LogAll(g, []).lh, Sectors([]))
  {
  }

  lemma LogAllNext(g: Geometry, us: seq<Write>, u: Write)
    requires Updates(g, us + [u])
    ensures Updates(g, us)
    ensures var t := LogAll(g, us);
            && LogAll(g, us + [u]).ok == (t.ok && |t.lh| < g.Limit())
            && (LogAll(g, us + [u]).ok ==> LogAll(g, us + [u]).lh == Absorb(t.lh, u.sector))
  {
    assert (us + [u])[..|us|] == us;
    forall i | 0 <= i < |us| ensures us[i].sector < g.start {
      assert (us + [u])[i] == us[i];
    }
  }

  /** log_write refuses to add to a full transaction even a block the log already holds:
      it panics exactly when the writes before the last one fill the log. Otherwise the
      header lists every sector written, once. */
  lemma {:induction false} LogAllFits(g: Geometry, us: seq<Write>)
    requires Updates(g, us)
    ensures LogAll(g, us).ok <==> us == [] || |Sectors(us[..|us| - 1])| < g.Limit()
    ensures LogAll(g, us).ok ==> Lists(LogAll(g, us).lh, Sectors(us))
  {
    hide LogAll, Sectors, Absorb, Lists, Updates;
    if us == [] {
      LogAllNone(g);
    } else {
      var us', u := us[..|us| - 1], us[|us| - 1];
      assert us == us' + [u];
      LogAllNext(g, us', u);
      LogAllFits(g, us');
      SectorsNext(us', u);
      var t := LogAll(g, us');
      if t.ok {
        AbsorbLists(t.lh, Sectors(us'), u.sector);
        ListsSize(t.lh, Sectors(us'));
      } else {
        var us'' := us'[..|us'| - 1];
        assert us' == us'' + [us'[|us'| - 1]];
        SectorsNext(us'', us'[|us'| - 1]);
        SubsetSize(Sectors(us''), Sectors(us'));
      }
    }
  }

  lemma ListsSize(lh: seq<nat>, S: set<nat>)
    requires Lists(lh, S)
    ensures |lh| == |S|
  {
  }

  /** The writes of commit_trans: the header (the commit point), the home blocks, and
      the header again with a zero count. Nothing at all for an empty transaction. */
  function CommitTrace(g: Geometry, d: Disk, lh: seq<nat>): (ws: seq<Write>)
    requires g.Fits(d) && LogList(g, lh)
    ensures InRange(ws, |d|)
  {
    if lh == [] then []
    else
      var h := HeaderBlock(d[g.start], lh);
      [Write(g.start, h)] + InstallWrites(g, d, lh) + [Write(g.start, SetWord(h, 0, 0))]
  }

  function TransactionTrace(g: Geometry, d: Disk, us: seq<Write>): (ws: seq<Write>)
    requires g.Fits(d) && Updates(g, us)
    ensures InRange(ws, |d|)
  {
    var t := LogAll(g, us);
    t.trace + if t.ok then CommitTrace(g, Apply(d, t.trace), t.lh) else []
  }

  /** Before the commit point nothing a recovery sees has changed. */
  lemma LogPrefixInvisible(g: Geometry, d: Disk, us: seq<Write>, k: nat)
    requires Clean(g, d) && Updates(g, us) && k <= |LogAll(g, us).trace|
    ensures var e := Apply(d, LogAll(g, us).trace[..k]);
            Clean(g, e) && Home(g, e) == Home(g, d) && e[g.start] == d[g.start]
  {
    var ws := LogAll(g, us).trace[..k];
    forall s | 0 <= s <= g.start ensures Apply(d, ws)[s] == d[s] {
      ApplyElsewhere(d, ws, s);
    }
  }

  /** The log holds, for each logged sector, the last contents logged for it. */
  lemma {:induction false} LogHoldsLast(g: Geometry, d: Disk, us: seq<Write>)
    requires g.Fits(d) && Updates(g, us) && LogAll(g, us).ok
    ensures Overlay(g, Apply(d, LogAll(g, us).trace), LogAll(g, us).lh) == Apply(Home(g, d), us)
  {
    if us != [] {
      var m := |us| - 1;
      LogHoldsLast(g, d, us[..m]);
      LogStep(g, d, LogAll(g, us[..m]), us[m]);
    }
  }

  lemma SlotAbsorb(lh: seq<nat>, u: nat, s: nat)
    requires Distinct(lh)
    ensures Distinct(Absorb(lh, u))
    ensures s in Absorb(lh, u) <==> s in lh || s == u
    ensures s in lh ==> Slot(Absorb(lh, u), s) == Slot(lh, s)
    ensures s !in lh && s == u ==> Slot(Absorb(lh, u), s) == |lh|
    ensures s in lh && s != u ==> Slot(lh, s) != Slot(lh, u)
  {
    var lh' := Absorb(lh, u);
    if s in lh {
      SlotUnique(lh', Slot(lh, s));
    } else if s == u {
      SlotUnique(lh', |lh|);
    }
  }

  lemma EffectiveAbsorb(g: Geometry, e: Disk, lh: seq<nat>, u: Write, s: nat)
    requires g.Fits(e) && Distinct(lh) && |lh| < g.Limit() && u.sector < g.start && s < g.start
    ensures var slot := g.start + 1 + Slot(lh, u.sector);
            slot < |e| && |Absorb(lh, u.sector)| <= g.Limit() &&
            Effective(g, e[slot := u.data], Absorb(lh, u.sector), s)
              == if s == u.sector then u.data else Effective(g, e, lh, s)
  {
    SlotAbsorb(lh, u.sector, s);
  }

  /** One more log_write: its slot now overlays its sector, the others stay. */
  lemma OverlayAbsorb(g: Geometry, e: Disk, lh: seq<nat>, u: Write)
    requires g.Fits(e) && Distinct(lh) && |lh| < g.Limit() && u.sector < g.start
    ensures var slot := g.start + 1 + Slot(lh, u.sector);
            slot < |e| && |Absorb(lh, u.sector)| <= g.Limit() &&
            Overlay(g, e[slot := u.data], Absorb(lh, u.sector)) == Overlay(g, e, lh)[u.sector := u.data]
  {
    EffectiveAbsorb(g, e, lh, u, u.sector);
    var e', lh' := e[g.start + 1 + Slot(lh, u.sector) := u.data], Absorb(lh, u.sector);
    var h := Overlay(g, e, lh)[u.sector := u.data];
    forall s | 0 <= s < g.start ensures Effective(g, e', lh', s) == h[s] {
      EffectiveAbsorb(g, e, lh, u, s);
    }
  }

  lemma LogStep(g: Geometry, d: Disk, t: Txn, u: Write)
    requires g.Fits(d) && TxnInv(g, t) && u.sector < g.start && LogOne(g, t, u).ok
    ensures var t' := LogOne(g, t, u);
            Overlay(g, Apply(d, t'.trace), t'.lh) == Overlay(g, Apply(d, t.trace), t.lh)[u.sector := u.data]
  {
    var t' := LogOne(g, t, u);
    assert t'.trace[..|t'.trace| - 1] == t.trace;
    OverlayAbsorb(g, Apply(d, t.trace), t.lh, u);
  }

  /** After the commit header is written, the rest of commit_trans is a recovery. */
  lemma CommitIsRecovery(g: Geometry, d: Disk, lh: seq<nat>)
    requires g.Fits(d) && LogList(g, lh) && lh != []
    ensures var c := d[g.start := HeaderBlock(d[g.start], lh)];
            && WellFormed(g, c) && HeaderSectors(c[g.start]) == lh
            && CommitTrace(g, d, lh) == [Write(g.start, c[g.start])] + RecoveryWrites(g, c)
            && Overlay(g, c, lh) == Overlay(g, d, lh)
  {
    HeaderRoundTrip(d[g.start], lh);
    var h := HeaderBlock(d[g.start], lh);
    var c := d[g.start := h];
    assert InstallWrites(g, c, lh) == InstallWrites(g, d, lh);
    var first, last := [Write(g.start, h)], [Write(g.start, SetWord(h, 0, 0))];
    assert first + InstallWrites(g, d, lh) + last == first + (InstallWrites(g, d, lh) + last);
    OverlayAgree(g, d, c, lh);
  }

  /** From the commit point on, every recovery yields the whole transaction. */
  lemma CommitPrefix(g: Geometry, d: Disk, lh: seq<nat>, k: nat)
    requires Clean(g, d) && LogList(g, lh) && lh != [] && 0 < k <= |CommitTrace(g, d, lh)|
    ensures var e := Apply(d, CommitTrace(g, d, lh)[..k]);
            WellFormed(g, e) && Meaning(g, e) == Overlay(g, d, lh)
            && (k == |CommitTrace(g, d, lh)| ==> Clean(g, e))
  {
    CommitIsRecovery(g, d, lh);
    var c := d[g.start := HeaderBlock(d[g.start], lh)];
    ApplyHead(d, Write(g.start, c[g.start]), RecoveryWrites(g, c), k);
    RecoveryStable(g, c, k - 1);
    MeaningIsOverlay(g, c);
  }

  // ----- Runs with crashes -----

  datatype Activity = Transaction(updates: seq<Write>) | Recover

  /** One activity and the number of its sector writes that reached the disk. An
      activity stopped short of its last write was cut off by a crash. */
  datatype Event = Event(what: Activity, stop: nat)

  predicate LegalActivity(g: Geometry, a: Activity) {
    a.Transaction? ==> Updates(g, a.updates)
  }

  function ActivityTrace(g: Geometry, d: Disk, a: Activity): (ws: seq<Write>)
    requires WellFormed(g, d) && LegalActivity(g, a)
    ensures InRange(ws, |d|)
  {
    match a
    case Transaction(us) => TransactionTrace(g, d, us)
    case Recover => RecoveryWrites(g, d)
  }

  function Reached(g: Geometry, d: Disk, ev: Event): (e: Disk)
    requires WellFormed(g, d) && LegalActivity(g, ev.what)
    ensures |e| == |d|
  {
    var ws := ActivityTrace(g, d, ev.what);
    if ev.stop >= |ws| then Apply(d, ws) else Apply(d, ws[..ev.stop])
  }

  /** The activity ran to its end. A transaction that panicked never does. */
  predicate Finished(g: Geometry, d: Disk, ev: Event)
    requires WellFormed(g, d) && LegalActivity(g, ev.what)
  {
    ev.stop >= |ActivityTrace(g, d, ev.what)| && (ev.what.Transaction? ==> LogAll(g, ev.what.updates).ok)
  }

  /** The abstract effect: a transaction happens as a whole if its commit header was
      written, and otherwise not at all. */
  predicate Commits(g: Geometry, ev: Event)
    requires LegalActivity(g, ev.what)
  {
    ev.what.Transaction? && LogAll(g, ev.what.updates).ok && ev.stop > |ev.what.updates|
  }

  function SpecEvent(g: Geometry, home: Disk, ev: Event): (h: Disk)
    requires LegalActivity(g, ev.what) && |home| == g.start
    ensures |h| == g.start
  {
    if Commits(g, ev) then Apply(home, ev.what.updates) else home
  }

  lemma RecoverEvent(g: Geometry, d: Disk, ev: Event)
    requires WellFormed(g, d) && ev.what.Recover?
    ensures WellFormed(g, Reached(g, d, ev)) && Meaning(g, Reached(g, d, ev)) == Meaning(g, d)
    ensures Finished(g, d, ev) ==> Clean(g, Reached(g, d, ev))
  {
    var ws := RecoveryWrites(g, d);
    assert ws[..|ws|] == ws;
    RecoveryStable(g, d, if ev.stop >= |ws| then |ws| else ev.stop);
    MeaningIsOverlay(g, d);
  }

  lemma BeforeCommit(g: Geometry, d: Disk, us: seq<Write>, k: nat)
    requires Clean(g, d) && Updates(g, us) && k <= |LogAll(g, us).trace|
    ensures var e := Apply(d, TransactionTrace(g, d, us)[..k]);
            Clean(g, e) && WellFormed(g, e) && Meaning(g, e) == Home(g, d)
  {
    assert TransactionTrace(g, d, us)[..k] == LogAll(g, us).trace[..k];
    LogPrefixInvisible(g, d, us, k);
    MeaningIsOverlay(g, Apply(d, LogAll(g, us).trace[..k]));
  }

  lemma AfterCommit(g: Geometry, d: Disk, us: seq<Write>, k: nat)
    requires Clean(g, d) && Updates(g, us) && |LogAll(g, us).trace| < k <= |TransactionTrace(g, d, us)|
    ensures var e := Apply(d, TransactionTrace(g, d, us)[..k]);
            && WellFormed(g, e) && Meaning(g, e) == Apply(Home(g, d), us)
            && (k == |TransactionTrace(g, d, us)| ==> Clean(g, e))
  {
    hide LogAll, Apply, Overlay, Meaning;
    var t := LogAll(g, us);
    var e := Apply(d, t.trace);
    ApplyTail(d, t.trace, CommitTrace(g, e, t.lh), k);
    assert t.trace[..|t.trace|] == t.trace;
    LogPrefixInvisible(g, d, us, |t.trace|);
    CommitPrefix(g, e, t.lh, k - |t.trace|);
    LogHoldsLast(g, d, us);
  }

  lemma CommitElsewhere(g: Geometry, d: Disk, lh: seq<nat>, s: nat, w: Write)
    requires g.Fits(d) && LogList(g, lh) && s < g.start && s !in lh && w in CommitTrace(g, d, lh)
    ensures w.sector != s
  {
    hide HeaderBlock, SetWord, LogList;
    var ws, ins := CommitTrace(g, d, lh), InstallWrites(g, d, lh);
    var i :| 0 <= i < |ws| && ws[i] == w;
    if 0 < i <= |ins| {
      assert ws[i] == ins[i - 1];
    }
  }

  lemma TraceElsewhere(g: Geometry, d: Disk, us: seq<Write>, s: nat, w: Write)
    requires g.Fits(d) && Updates(g, us) && s < g.start && s !in Sectors(us) && w in TransactionTrace(g, d, us)
    ensures w.sector != s
  {
    hide Apply, LogAll, Sectors, CommitTrace, LogList;
    LogAllFits(g, us);
    var t := LogAll(g, us);
    if w !in t.trace {
      assert t.ok && s !in t.lh;
      CommitElsewhere(g, Apply(d, t.trace), t.lh, s, w);
    }
  }

  /** A home sector that is not among the updates is not written at any point. */
  lemma ReachedElsewhere(g: Geometry, d: Disk, us: seq<Write>, stop: nat, s: nat)
    requires WellFormed(g, d) && Updates(g, us) && s < g.start && s !in Sectors(us)
    ensures Reached(g, d, Event(Transaction(us), stop))[s] == d[s]
  {
    hide Apply, LogAll, Sectors, TransactionTrace;
    var ws := TransactionTrace(g, d, us);
    var k := if stop >= |ws| then |ws| else stop;
    assert ws[..|ws|] == ws;
    forall w | w in ws[..k] ensures w.sector != s {
      TraceElsewhere(g, d, us, s, w);
    }
    ApplyElsewhere(d, ws[..k], s);
  }

  lemma LoggedSomething(g: Geometry, us: seq<Write>)
    requires Updates(g, us) && LogAll(g, us).ok && us != []
    ensures LogAll(g, us).lh != []
  {
    var t := LogAll(g, us[..|us| - 1]);
    assert LogOne(g, t, us[|us| - 1]).lh == Absorb(t.lh, us[|us| - 1].sector);
  }

  lemma TransactionEvent(g: Geometry, d: Disk, ev: Event)
    requires Clean(g, d) && ev.what.Transaction? && Updates(g, ev.what.updates)
    ensures WellFormed(g, d) && WellFormed(g, Reached(g, d, ev))
    ensures Meaning(g, Reached(g, d, ev)) == SpecEvent(g, Home(g, d), ev)
    ensures Finished(g, d, ev) ==> Clean(g, Reached(g, d, ev))
  {
    var us := ev.what.updates;
    var ws := TransactionTrace(g, d, us);
    assert ws[..|ws|] == ws;
    var k := if ev.stop >= |ws| then |ws| else ev.stop;
    if k <= |LogAll(g, us).trace| {
      BeforeCommit(g, d, us, k);
    } else {
      AfterCommit(g, d, us, k);
    }
    if LogAll(g, us).ok && us != [] {
      LoggedSomething(g, us);
    }
  }

  /** Transactions start on a log that the previous activity left clean; a boot after
      a crash recovers first. Recovery may run at any time. */
  predicate LegalRun(g: Geometry, d: Disk, clean: bool, run: seq<Event>)
    requires WellFormed(g, d) && (clean ==> Clean(g, d))
    decreases |run|
  {
    run == [] ||
    (var ev := run[0];
     && LegalActivity(g, ev.what)
     && (ev.what.Transaction? ==> clean)
     && (if ev.what.Transaction? then TransactionEvent(g, d, ev); true else RecoverEvent(g, d, ev); true)
     && LegalRun(g, Reached(g, d, ev), Finished(g, d, ev), run[1..]))
  }

  function RunDisk(g: Geometry, d: Disk, clean: bool, run: seq<Event>): Disk
    requires WellFormed(g, d) && (clean ==> Clean(g, d)) && LegalRun(g, d, clean, run)
    decreases |run|
  {
    if run == [] then d
    else
      var ev := run[0];
      assert WellFormed(g, Reached(g, d, ev)) && (Finished(g, d, ev) ==> Clean(g, Reached(g, d, ev))) by {
        if ev.what.Transaction? { TransactionEvent(g, d, ev); } else { RecoverEvent(g, d, ev); }
      }
      RunDisk(g, Reached(g, d, ev), Finished(g, d, ev), run[1..])
  }

  predicate LegalActivities(g: Geometry, run: seq<Event>) {
    forall i :: 0 <= i < |run| ==> LegalActivity(g, run[i].what)
  }

  /** The same run on a plain array of blocks where transactions are indivisible. */
  function SpecRun(g: Geometry, home: Disk, run: seq<Event>): (h: Disk)
    requires LegalActivities(g, run) && |home| == g.start
    ensures |h| == g.start
    decreases |run|
  {
    if run == [] then home else SpecRun(g, SpecEvent(g, home, run[0]), run[1..])
  }

  lemma CleanMeaning(g: Geometry, d: Disk)
    requires Clean(g, d)
    ensures WellFormed(g, d) && Meaning(g, d) == Home(g, d)
  {
    MeaningIsOverlay(g, d);
  }

  /** Crash atomicity: after every run, with crashes anywhere among the sector writes of
      log_write, commit_trans and recovery, the disk stands for what the plain array
      holds after the committed transactions; and once recovery or a transaction has
      finished, its home sectors are exactly that. */
  lemma {:induction false} CrashAtomicity(g: Geometry, d: Disk, clean: bool, run: seq<Event>)
    requires WellFormed(g, d) && (clean ==> Clean(g, d)) && LegalRun(g, d, clean, run)
    ensures LegalActivities(g, run)
    ensures var e := RunDisk(g, d, clean, run);
            && WellFormed(g, e)
            && Meaning(g, e) == SpecRun(g, Meaning(g, d), run)
            && (Clean(g, e) ==> Home(g, e) == SpecRun(g, Meaning(g, d), run))
    decreases |run|
  {
    hide Clean, Meaning, Home, Reached, Finished, Recovered, Effective, Overlay, Updates;
    if run == [] {
      if Clean(g, d) { CleanMeaning(g, d); }
    } else {
      var ev := run[0];
      if ev.what.Transaction? {
        TransactionEvent(g, d, ev);
        CleanMeaning(g, d);
      } else {
        RecoverEvent(g, d, ev);
      }
      CrashAtomicity(g, Reached(g, d, ev), Finished(g, d, ev), run[1..]);
    }
  }
}
