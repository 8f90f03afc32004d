/** What a system call does to buffers, step by step: it holds several at once, logs some of
    them and lets them go. As long as the sectors it may hold are fewer than the buffers,
    no bread of it panics or sleeps, and it makes the log writes of one transaction. */
module LogScript {
  import opened Blocks
  import opened Counting
  import opened Memide
  import opened Options
  import opened Recovery
  import opened BufferCache
  import opened LogRoom
  import opened LogRun
  import Bio

  /** bread of a sector; a change of its data and log_write; brelse. */
  datatype Step = Hold(s: nat) | Log(s: nat, data: Block) | Drop(s: nat)

  // ----- The steps through the cache -----

  /** A step on the cache and the list of logged sectors; None is a panic or a sleep. */
  function Exec(g: Geometry, c: State, lh: seq<nat>, st: Step): (r: Option<(State, seq<nat>)>)
    requires Shape(c) && g.nlog > 0
    ensures r.Some? ==> Shape(r.value.0) && |r.value.0.disk| == |c.disk|
  {
    match st
    case Hold(s) =>
      var (c1, got) := BRead(c, ROOTDEV, s);
      if got.Got? then Some((c1, lh)) else None
    case Log(s, data) =>
      var b := Owner(c.buf, s);
      if b == NBUF || |lh| >= g.Limit() then None
      else
        var c1 := LogHeld(g, Store(c, b, data), lh, b, s);
        if c1.None? then None else Some((c1.value, Absorb(lh, s)))
    case Drop(s) =>
      var b := Owner(c.buf, s);
      if b == NBUF || !c.buf[b].busy then None else Some((BRelse(c, b), lh))
  }

  function ExecAll(g: Geometry, c: State, steps: seq<Step>): (r: Option<(State, seq<nat>)>)
    requires Shape(c) && g.nlog > 0
    ensures r.Some? ==> Shape(r.value.0) && |r.value.0.disk| == |c.disk|
  {
    if steps == [] then Some((c, []))
    else
      var m := |steps| - 1;
      var r := ExecAll(g, c, steps[..m]);
      if r.None? then None else Exec(g, r.value.0, r.value.1, steps[m])
  }

  function LoggedBy(us: seq<Write>, st: Step): seq<Write> {
    if st.Log? then us + [Write(st.s, st.data)] else us
  }

  /** The log_write calls among the steps. */
  function Logged(steps: seq<Step>): seq<Write> {
    if steps == [] then []
    else
      var m := |steps| - 1;
      LoggedBy(Logged(steps[..m]), steps[m])
  }

  // ----- Steps that go together -----

  function HeldBy(held: set<nat>, st: Step): set<nat> {
    match st
    case Hold(s) => held + {s}
    case Log(s, data) => held
    case Drop(s) => held - {s}
  }

  /** The sectors held after the steps. */
  function HeldAfter(held: set<nat>, steps: seq<Step>): set<nat> {
    if steps == [] then held
    else
      var m := |steps| - 1;
      HeldBy(HeldAfter(held, steps[..m]), steps[m])
  }

  /** A sector is held once at a time, and is logged and dropped while it is held; all held
      are in `may`, all logged in `log`. */
  predicate StepOk(log: set<nat>, may: set<nat>, held: set<nat>, st: Step) {
    match st
    case Hold(s) => s in may && s !in held
    case Log(s, data) => s in log && s in held
    case Drop(s) => s in held
  }

  predicate Proper(log: set<nat>, may: set<nat>, held: set<nat>, steps: seq<Step>) {
    steps == [] ||
    (var m := |steps| - 1;
     Proper(log, may, held, steps[..m]) && StepOk(log, may, HeldAfter(held, steps[..m]), steps[m]))
  }

  lemma {:induction false} Concat(log: set<nat>, may: set<nat>, held: set<nat>, a: seq<Step>, b: seq<Step>)
    ensures Logged(a + b) == Logged(a) + Logged(b)
    ensures HeldAfter(held, a + b) == HeldAfter(HeldAfter(held, a), b)
    ensures Proper(log, may, held, a) && Proper(log, may, HeldAfter(held, a), b) ==> Proper(log, may, held, a + b)
  {
    if b == [] {
      assert a + b == a;
    } else {
      var m := |b| - 1;
      Concat(log, may, held, a, b[..m]);
      assert (a + b)[..|a| + m] == a + b[..m];
    }
  }

  // ----- There are buffers -----

  /** The buffer of a held sector has what the log, or else the disk, has for it. */
  predicate HeldOk(g: Geometry, c: State, lh: seq<nat>, s: nat)
    requires Shape(c) && g.Fits(c.disk) && |lh| <= g.Limit()
  {
    && s < g.start && Owner(c.buf, s) < NBUF && Held(c, Owner(c.buf, s), s)
    && c.buf[Owner(c.buf, s)].data == Effective(g, c.disk, lh, s)
  }

  /** In a transaction with these sectors held. */
  ghost predicate Inv(g: Geometry, c: State, lh: seq<nat>, held: set<nat>) {
    && Steady(c, g, lh) && (forall i :: 0 <= i < NBUF && c.buf[i].busy ==> c.buf[i].dev == ROOTDEV && c.buf[i].sector in held)
    && forall s :: s in held ==> HeldOk(g, c, lh, s)
  }

  lemma InvParts(g: Geometry, c: State, lh: seq<nat>, held: set<nat>)
    requires Inv(g, c, lh, held)
    ensures Steady(c, g, lh) && Coherent(c) && Shape(c) && g.Fits(c.disk) && LogList(g, lh) && DirtyIn(c, lh)
    ensures forall i :: 0 <= i < NBUF && c.buf[i].busy ==> c.buf[i].dev == ROOTDEV && c.buf[i].sector in held
  {
    hide SteadyAt, HeldOk;
  }

  lemma InvHeld(g: Geometry, c: State, lh: seq<nat>, held: set<nat>, s: nat)
    requires Inv(g, c, lh, held) && s in held
    ensures Shape(c) && g.Fits(c.disk) && |lh| <= g.Limit() && HeldOk(g, c, lh, s)
  {
    hide HeldOk, SteadyAt;
  }

  lemma InvFrom(g: Geometry, c: State, lh: seq<nat>, held: set<nat>)
    requires Steady(c, g, lh) && Shape(c)
    requires forall i :: 0 <= i < NBUF && c.buf[i].busy ==> c.buf[i].dev == ROOTDEV && c.buf[i].sector in held
    requires forall s :: s in held ==> HeldOk(g, c, lh, s)
    ensures Inv(g, c, lh, held)
  {
    hide HeldOk, SteadyAt;
  }

  /** A sector that is not held can be had while the logged and held ones leave a buffer. */
  lemma ManyGot(c: State, lh: seq<nat>, held: set<nat>, s: nat)
    requires Coherent(c) && DirtyIn(c, lh) && s < |c.disk| && s !in held && |Elems(lh) + held| < NBUF
    requires forall i :: 0 <= i < NBUF && c.buf[i].busy ==> c.buf[i].dev == ROOTDEV && c.buf[i].sector in held
    ensures BRead(c, ROOTDEV, s).1.Got?
  {
    BReadContent(c, s);
    GetOutcome(c, s);
    hide BRead, BGet, Owner;
    if forall i :: 0 <= i < NBUF ==> c.buf[i].busy || c.buf[i].dirty {
      forall i | 0 <= i < NBUF ensures c.buf[i].dev == ROOTDEV && c.buf[i].sector in Elems(lh) + held {
        assert BufOk(c.buf[i], c.disk);
      }
      Pigeons(c, Elems(lh) + held);
    }
  }

  lemma HoldRuns(g: Geometry, c: State, lh: seq<nat>, held: set<nat>, s: nat)
    requires Inv(g, c, lh, held) && s < g.start && s !in held && Shape(c) && |Elems(lh) + held| < NBUF
    ensures var r := Exec(g, c, lh, Hold(s));
            && r.Some? && r.value.1 == lh && Inv(g, r.value.0, lh, held + {s})
            && r.value.0.disk == c.disk && r.value.0.trace == c.trace
  {
    hide BRead, Coherent, Content, Owner, Steady, Effective, Elems;
    InvParts(g, c, lh, held);
    ManyGot(c, lh, held, s);
    BReadContent(c, s);
    var (c', got) := BRead(c, ROOTDEV, s);
    ReadSteady(c, c', g, lh, got.b, s);
    HoldContent(g, c, lh, held, s);
    NewHeld(c', got.b, s);
    forall t | t in held ensures HeldOk(g, c', lh, t) {
      assert HeldOk(g, c, lh, t);
      OldHeld(c, c', Owner(c.buf, t), t);
    }
    assert HeldOk(g, c', lh, s);
  }

  lemma HoldContent(g: Geometry, c: State, lh: seq<nat>, held: set<nat>, s: nat)
    requires Inv(g, c, lh, held) && s < g.start && s !in held
    ensures Shape(c) && g.Fits(c.disk) && |lh| <= g.Limit() && Content(c, s) == Effective(g, c.disk, lh, s)
  {
    hide Content, Effective;
    assert SteadyAt(c, g, lh, s);
  }

  lemma NewHeld(c: State, b: nat, s: nat)
    requires Coherent(c) && b < NBUF && c.buf[b].Holds(ROOTDEV, s)
    ensures Owner(c.buf, s) == b
  {
    OwnerIs(c, b);
  }

  lemma OldHeld(c: State, c': State, b: nat, s: nat)
    requires Coherent(c) && Coherent(c') && b < NBUF && b == Owner(c.buf, s) && c'.buf[b] == c.buf[b]
    ensures Owner(c'.buf, s) == b
  {
    OwnerIs(c', b);
  }

  lemma DropRuns(g: Geometry, c: State, lh: seq<nat>, held: set<nat>, s: nat)
    requires Inv(g, c, lh, held) && s in held && Shape(c)
    ensures var r := Exec(g, c, lh, Drop(s));
            && r.Some? && r.value.1 == lh && Inv(g, r.value.0, lh, held - {s})
            && r.value.0.disk == c.disk && r.value.0.trace == c.trace
  {
    hide Coherent, Content, Owner, Steady, Effective, ToFront;
    InvParts(g, c, lh, held);
    assert HeldOk(g, c, lh, s);
    var b := Owner(c.buf, s);
    var c' := BRelse(c, b);
    ReleaseSteady(c, c', g, lh, b, s);
    SteadyBasics(c', g, lh);
    forall t | t in held && t != s ensures HeldOk(g, c', lh, t) {
      assert HeldOk(g, c, lh, t);
      OldHeld(c, c', Owner(c.buf, t), t);
    }
    forall i | 0 <= i < NBUF && c'.buf[i].busy ensures c'.buf[i].dev == ROOTDEV && c'.buf[i].sector in held - {s} {
      if c'.buf[i].sector == s {
        NewHeld(c, i, s);
      }
    }
  }

  /** The log's block of a sector. */
  lemma PutRuns(c: State, s: nat, data: Block)
    requires Coherent(c) && s < |c.disk| && BRead(c, ROOTDEV, s).1.Got?
    ensures Shape(c) && PutSector(c, s, data).Some?
    ensures var c' := PutSector(c, s, data).value;
            && Coherent(c') && Kept(c, c', s) && c'.disk == c.disk[s := data] && c'.trace == c.trace + [Write(s, data)]
            && forall t :: 0 <= t < |c.disk| && t != s ==> Content(c', t) == Content(c, t)
  {
    hide BRead, Coherent, Content, Owner, BWrite, Kept;
    ShapeOf(c);
    var (c1, got) := BRead(c, ROOTDEV, s);
    BReadContent(c, s);
    HeldAfterRead(c, c1, got.b, s);
    var c2 := Store(c1, got.b, data);
    StoreContent(c1, got.b, s, data);
    BWriteContent(c2, got.b, s);
    var c3 := BWrite(c2, got.b);
    var c4 := BRelse(c3, got.b);
    PutBack(c1, c2, c3, c4, got.b, s, data);
    OneKept(c, c1, c4, got.b, s);
  }

  /** log_write of one held buffer leaves the others alone. */
  lemma OthersHeld(g: Geometry, c: State, c1: State, c2: State, c3: State, lh: seq<nat>, b: nat, s: nat, data: Block, t: nat)
    requires Coherent(c) && g.Fits(c.disk) && LogList(g, lh) && |lh| < g.Limit() && s < g.start && HeldOk(g, c, lh, t)
    requires b < NBUF && b == Owner(c.buf, s) && Held(c, b, s) && c1 == Store(c, b, data) && Coherent(c1)
    requires Kept(c1, c2, g.start + 1 + Slot(lh, s)) && Coherent(c2) && c2.disk == c.disk[g.start + 1 + Slot(lh, s) := data]
    requires c3 == c2.Set(b, c2.buf[b].(dirty := true)) && Coherent(c3) && c2.buf[b] == c1.buf[b] && LogList(g, Absorb(lh, s))
    ensures HeldOk(g, c3, Absorb(lh, s), t)
  {
    hide Coherent, Owner, Effective, Slot;
    ShapeOf(c);
    EffectiveAbsorb(g, c.disk, lh, Write(s, data), t);
    var o := Owner(c.buf, t);
    if t == s {
      NewHeld(c3, b, s);
    } else {
      NewHeld(c, b, s);
      assert o != b;
      assert BufKept(c1.buf[o], c2.buf[o], g.start + 1 + Slot(lh, s));
      OldHeld(c, c3, o, t);
    }
  }

  /** log_write once its buffer for the log block is sure. */
  lemma LogHeldRuns(g: Geometry, c: State, lh: seq<nat>, b: nat, s: nat, l: nat)
    requires Steady(c, g, lh) && Shape(c) && |lh| < g.Limit() && b < NBUF && Held(c, b, s) && s < g.start
    requires l == g.start + 1 + Slot(lh, s) && l < |c.disk| && BRead(c, ROOTDEV, l).1.Got?
    ensures PutSector(c, l, c.buf[b].data).Some? && LogHeld(g, c, lh, b, s).Some?
    ensures var c2, c3 := PutSector(c, l, c.buf[b].data).value, LogHeld(g, c, lh, b, s).value;
            && c3 == c2.Set(b, c2.buf[b].(dirty := true)) && Steady(c3, g, Absorb(lh, s)) && Coherent(c2) && c2.buf[b] == c.buf[b]
            && Kept(c, c2, l) && c2.disk == c.disk[l := c.buf[b].data] && c2.trace == c.trace + [Write(l, c.buf[b].data)]
  {
    hide BRead, Coherent, Content, Owner, Steady, PutSector, Kept, Slot, Absorb, Held;
    SteadyBasics(c, g, lh);
    PutRuns(c, l, c.buf[b].data);
    var c2 := PutSector(c, l, c.buf[b].data).value;
    LogWriteSteady(c, c2, c2.Set(b, c2.buf[b].(dirty := true)), g, lh, b, s, l);
  }

  lemma LogRuns(g: Geometry, c: State, lh: seq<nat>, held: set<nat>, s: nat, data: Block)
    requires Inv(g, c, lh, held) && s in held && Shape(c) && |lh| < g.Limit() && |Elems(lh) + held| < NBUF
    requires forall t :: t in held ==> t < g.start
    ensures var r := Exec(g, c, lh, Log(s, data));
            && r.Some? && r.value.1 == Absorb(lh, s) && Inv(g, r.value.0, Absorb(lh, s), held)
            && Wrote(c, r.value.0, [Write(g.start + 1 + Slot(lh, s), data)])
  {
    hide BRead, Coherent, Content, Owner, Steady, Effective, PutSector, Kept, Elems, Slot, LogList, Wrote, Absorb, HeldOk, Inv, LogHeld;
    InvParts(g, c, lh, held);
    InvHeld(g, c, lh, held, s);
    HeldBuffer(g, c, lh, s);
    var b, l := Owner(c.buf, s), g.start + 1 + Slot(lh, s);
    var c1 := Store(c, b, data);
    FillSteady(c, c1, g, lh, b, s, data);
    SteadyBasics(c1, g, lh);
    StoreFlags(c, b, data, lh, held);
    SlotBound(g, c, lh, s);
    ManyGot(c1, lh, held, l);
    LogHeldRuns(g, c1, lh, b, s, l);
    var c2, c3 := PutSector(c1, l, data).value, LogHeld(g, c1, lh, b, s).value;
    SteadyBasics(c3, g, Absorb(lh, s));
    forall t | t in held ensures HeldOk(g, c3, Absorb(lh, s), t) {
      InvHeld(g, c, lh, held, t);
      OthersHeld(g, c, c1, c2, c3, lh, b, s, data, t);
    }
    BusyKept(c1, c2, c3, b, l, held);
    InvFrom(g, c3, Absorb(lh, s), held);
    WroteOne(c, c3, Write(l, data));
  }

  lemma SlotBound(g: Geometry, c: State, lh: seq<nat>, s: nat)
    requires g.Fits(c.disk) && |lh| < g.Limit()
    ensures g.start < g.start + 1 + Slot(lh, s) < |c.disk|
  {
  }

  lemma HeldBuffer(g: Geometry, c: State, lh: seq<nat>, s: nat)
    requires Shape(c) && g.Fits(c.disk) && |lh| <= g.Limit() && HeldOk(g, c, lh, s)
    ensures s < g.start && Owner(c.buf, s) < NBUF && Held(c, Owner(c.buf, s), s)
  {
  }

  lemma StoreFlags(c: State, b: nat, data: Block, lh: seq<nat>, held: set<nat>)
    requires Shape(c) && b < NBUF && DirtyIn(c, lh)
    requires forall i :: 0 <= i < NBUF && c.buf[i].busy ==> c.buf[i].dev == ROOTDEV && c.buf[i].sector in held
    ensures var c1 := Store(c, b, data);
            && DirtyIn(c1, lh) && c1.disk == c.disk && c1.trace == c.trace && c1.buf[b].data == data
            && forall i :: 0 <= i < NBUF && c1.buf[i].busy ==> c1.buf[i].dev == ROOTDEV && c1.buf[i].sector in held
  {
  }

  lemma BusyKept(c1: State, c2: State, c3: State, b: nat, l: nat, held: set<nat>)
    requires Kept(c1, c2, l) && b < NBUF && c3 == c2.Set(b, c2.buf[b].(dirty := true))
    requires forall i :: 0 <= i < NBUF && c1.buf[i].busy ==> c1.buf[i].dev == ROOTDEV && c1.buf[i].sector in held
    ensures forall i :: 0 <= i < NBUF && c3.buf[i].busy ==> c3.buf[i].dev == ROOTDEV && c3.buf[i].sector in held
  {
    forall i | 0 <= i < NBUF && c3.buf[i].busy ensures c3.buf[i].dev == ROOTDEV && c3.buf[i].sector in held {
      assert BufKept(c1.buf[i], c2.buf[i], l);
    }
  }

  // ----- Whole scripts -----

  /** From c the log_write calls us have led to c1, with lh logged and these sectors held. */
  ghost predicate RanTo(g: Geometry, c: State, us: seq<Write>, c1: State, lh: seq<nat>, held: set<nat>) {
    && Updates(g, us) && LogAll(g, us).ok && lh == LogAll(g, us).lh && Inv(g, c1, lh, held) && Wrote(c, c1, LogAll(g, us).trace)
  }

  /** The script runs to its end. */
  ghost predicate Ran(g: Geometry, c: State, steps: seq<Step>)
    requires Shape(c) && g.nlog > 0
  {
    var r := ExecAll(g, c, steps);
    r.Some? && RanTo(g, c, Logged(steps), r.value.0, r.value.1, HeldAfter({}, steps))
  }

  lemma {:induction false} Bounds(log: set<nat>, may: set<nat>, steps: seq<Step>)
    requires Proper(log, may, {}, steps)
    ensures HeldAfter({}, steps) <= may && Sectors(Logged(steps)) <= log
  {
    if steps == [] {
      assert Sectors([]) == {};
    } else {
      var m := |steps| - 1;
      Bounds(log, may, steps[..m]);
      if steps[m].Log? {
        SectorsNext(Logged(steps[..m]), Write(steps[m].s, steps[m].data));
      } else {
        assert Logged(steps) == Logged(steps[..m]);
      }
    }
  }

  /** A script whose sectors lie before the log and are fewer than the buffers, with no more
      logged than fit, runs from an idle cache without a panic or a sleep, and makes
      exactly the log writes of its log_write calls. */
  lemma {:induction false} ScriptRuns(g: Geometry, c: State, steps: seq<Step>, log: set<nat>, may: set<nat>)
    requires Steady(c, g, []) && Shape(c) && Idle(c) && g.nlog > 0 && Proper(log, may, {}, steps)
    requires log <= may && |may| < NBUF && |log| < g.Limit() && forall s :: s in may ==> s < g.start
    ensures Ran(g, c, steps)
  {
    hide Inv, Steady, Exec, LogAll, Sectors, Wrote, Updates, StepOk;
    if steps == [] {
      RanNothing(g, c);
    } else {
      var m := |steps| - 1;
      ScriptRuns(g, c, steps[..m], log, may);
      Bounds(log, may, steps[..m]);
      var us := Logged(steps[..m]);
      var c1, lh := ExecAll(g, c, steps[..m]).value.0, LogAll(g, us).lh;
      LogAllFits(g, us);
      Sized(lh, Sectors(us), HeldAfter({}, steps[..m]), log, may);
      StepRuns(g, c, us, c1, lh, HeldAfter({}, steps[..m]), steps[m], log, may);
      LastStep(g, c, steps);
    }
  }

  lemma RanNothing(g: Geometry, c: State)
    requires Steady(c, g, []) && Shape(c) && Idle(c) && g.nlog > 0
    ensures Ran(g, c, [])
  {
    hide Steady;
    LogNothing(g);
    WroteNothing(c, c, []);
  }

  lemma Sized(lh: seq<nat>, sectors: set<nat>, held: set<nat>, log: set<nat>, may: set<nat>)
    requires Lists(lh, sectors) && sectors <= log && held <= may && log <= may
    ensures |lh| <= |log| && |Elems(lh) + held| <= |may|
  {
    assert Elems(lh) == sectors;
    SubsetSize(sectors, log);
    SubsetSize(Elems(lh) + held, may);
  }

  /** One more step. */
  lemma StepRuns(g: Geometry, c: State, us: seq<Write>, c1: State, lh: seq<nat>, held: set<nat>, st: Step, log: set<nat>, may: set<nat>)
    requires RanTo(g, c, us, c1, lh, held) && Shape(c1) && g.nlog > 0 && StepOk(log, may, held, st)
    requires held <= may && (forall s :: s in may ==> s < g.start) && |lh| < g.Limit() && |Elems(lh) + held| < NBUF
    ensures var r := Exec(g, c1, lh, st);
            r.Some? && RanTo(g, c, LoggedBy(us, st), r.value.0, r.value.1, HeldBy(held, st))
  {
    hide Inv, LogAll, Elems, Exec, Slot, Absorb, Wrote, Updates;
    match st
    case Hold(s) =>
      HoldRuns(g, c1, lh, held, s);
      WroteSame(c, c1, Exec(g, c1, lh, st).value.0, LogAll(g, us).trace);
    case Drop(s) =>
      DropRuns(g, c1, lh, held, s);
      WroteSame(c, c1, Exec(g, c1, lh, st).value.0, LogAll(g, us).trace);
    case Log(s, data) =>
      LogRuns(g, c1, lh, held, s, data);
      RanLog(g, us, Write(s, data), c, c1, Exec(g, c1, lh, st).value.0);
  }

  lemma LastStep(g: Geometry, c: State, steps: seq<Step>)
    requires steps != [] && Shape(c) && g.nlog > 0
    ensures var m := |steps| - 1;
            var r := ExecAll(g, c, steps[..m]);
            && (r.Some? ==> ExecAll(g, c, steps) == Exec(g, r.value.0, r.value.1, steps[m]))
            && Logged(steps) == LoggedBy(Logged(steps[..m]), steps[m])
            && HeldAfter({}, steps) == HeldBy(HeldAfter({}, steps[..m]), steps[m])
  {
    hide Exec;
  }

  lemma WroteSame(a: State, b: State, c: State, ws: seq<Write>)
    requires Wrote(a, b, ws) && c.disk == b.disk && c.trace == b.trace
    ensures Wrote(a, c, ws)
  {
    hide Apply;
  }

  lemma RanLog(g: Geometry, us: seq<Write>, u: Write, c: State, c1: State, c2: State)
    requires Updates(g, us) && u.sector < g.start && LogAll(g, us).ok && |LogAll(g, us).lh| < g.Limit()
    requires Wrote(c, c1, LogAll(g, us).trace) && Wrote(c1, c2, [Write(g.start + 1 + Slot(LogAll(g, us).lh, u.sector), u.data)])
    ensures Updates(g, us + [u]) && LogAll(g, us + [u]).ok && LogAll(g, us + [u]).lh == Absorb(LogAll(g, us).lh, u.sector)
    ensures Wrote(c, c2, LogAll(g, us + [u]).trace)
  {
    hide LogAll, Wrote, Slot, Absorb;
    UpdatesNext(g, us, u);
    WroteThen(c, c1, c2, LogAll(g, us).trace, [Write(g.start + 1 + Slot(LogAll(g, us).lh, u.sector), u.data)]);
  }

  lemma UpdatesNext(g: Geometry, us: seq<Write>, u: Write)
    requires Updates(g, us) && u.sector < g.start
    ensures Updates(g, us + [u]) && LogAll(g, us + [u]) == LogOne(g, LogAll(g, us), u)
  {
    assert (us + [u])[..|us|] == us;
  }

  // ----- The same steps by the code of cache and log -----

  /** One step; the buffer of a held sector is the one the caller has a pointer to. */
  method RunStep(l: Log, st: Step, ghost held: set<nat>, ghost log: set<nat>, ghost may: set<nat>) returns (ok: bool)
    requires l.InTransaction() && l.busy && Inv(l.g, l.cache.S(), l.Lh(), held) && StepOk(log, may, held, st)
    requires held <= may && (forall s :: s in may ==> s < l.g.start) && |l.Lh()| < l.g.Limit() && |Elems(l.Lh()) + held| < NBUF
    modifies l, l.cache
    ensures ok && l.InTransaction() && l.busy
    ensures Exec(l.g, old(l.cache.S()), old(l.Lh()), st) == Some((l.cache.S(), l.Lh()))
  {
    hide BRead, Coherent, Content, Owner, SteadyAt, Elems, Slot, Absorb, LogHeld, Bio.Linked, LogList, HeldOk, Effective, ToFront, Apply;
    ghost var c, lh := l.cache.S(), l.Lh();
    InvParts(l.g, c, lh, held);
    match st {
      case Hold(s) =>
        HoldRuns(l.g, c, lh, held, s);
        var r := l.cache.Read(ROOTDEV, s);
        ok := r.Got?;
        StillSteady(l.g, l.cache.S(), lh, held + {s});
      case Drop(s) =>
        InvHeld(l.g, c, lh, held, s);
        HeldBuffer(l.g, c, lh, s);
        DropRuns(l.g, c, lh, held, s);
        ok := l.cache.Release(Owner(l.cache.buf, s));
        StillSteady(l.g, l.cache.S(), lh, held - {s});
      case Log(s, data) =>
        InvHeld(l.g, c, lh, held, s);
        HeldBuffer(l.g, c, lh, s);
        LogRuns(l.g, c, lh, held, s, data);
        var b := Owner(l.cache.buf, s);
        l.cache.Fill(b, data);
        FillSteady(c, l.cache.S(), l.g, lh, b, s, data);
        SteadyBasics(l.cache.S(), l.g, lh);
        LoggedGot(l.g, l.cache.S(), lh, b, s);
        ok := l.LogWrite(b, s);
    }
  }

  lemma StillSteady(g: Geometry, c: State, lh: seq<nat>, held: set<nat>)
    requires Inv(g, c, lh, held)
    ensures Steady(c, g, lh) && Coherent(c)
  {
    InvParts(g, c, lh, held);
  }

  lemma LoggedGot(g: Geometry, c: State, lh: seq<nat>, b: nat, s: nat)
    requires Shape(c) && b < NBUF && LogHeld(g, c, lh, b, s).Some?
    ensures BRead(c, ROOTDEV, g.start + 1 + Slot(lh, s)).1.Got?
  {
    hide BRead, Slot;
  }

  lemma {:induction false} ProperPrefix(log: set<nat>, may: set<nat>, steps: seq<Step>, i: nat)
    requires Proper(log, may, {}, steps) && i < |steps|
    ensures Proper(log, may, {}, steps[..i]) && StepOk(log, may, HeldAfter({}, steps[..i]), steps[i])
    decreases |steps|
  {
    var m := |steps| - 1;
    if i < m {
      ProperPrefix(log, may, steps[..m], i);
      assert steps[..m][..i] == steps[..i];
    }
  }

  /** begin_trans, the steps and commit_trans. */
  method RunScript(l: Log, steps: seq<Step>, ghost log: set<nat>, ghost may: set<nat>) returns (ok: bool)
    requires l.InTransaction() && !l.busy && l.n == 0 && Idle(l.cache.S())
    requires Proper(log, may, {}, steps) && HeldAfter({}, steps) == {}
    requires log <= may && |may| < NBUF && |log| < l.g.Limit() && forall s :: s in may ==> s < l.g.start
    modifies l, l.cache
    ensures ok && l.InTransaction() && !l.busy && l.n == 0 && Idle(l.cache.S())
    ensures Updates(l.g, Logged(steps)) && LogAll(l.g, Logged(steps)).ok
    ensures Wrote(old(l.cache.S()), l.cache.S(), TransactionTrace(l.g, old(l.cache.disk), Logged(steps)))
  {
    hide Exec, Steady, Coherent, LogAll, CommitTrace, Apply, Elems, LogList, Bio.Linked, Proper, StepOk, Sectors, Idle, Inv;
    ghost var c0, us := l.cache.S(), Logged(steps);
    SteadyBasics(c0, l.g, []);
    ok := l.BeginTrans();
    var i := 0;
    while i < |steps|
      invariant 0 <= i <= |steps| && l.InTransaction() && l.busy
      invariant ExecAll(l.g, c0, steps[..i]) == Some((l.cache.S(), l.Lh()))
    {
      ghost var held := HeldAfter({}, steps[..i]);
      ReadyFor(l.g, c0, steps, i, log, may);
      ok := RunStep(l, steps[i], held, log, may);
      assert steps[..i + 1][..i] == steps[..i];
      i := i + 1;
    }
    assert steps[..|steps|] == steps;
    ScriptRuns(l.g, c0, steps, log, may);
    ghost var c1 := l.cache.S();
    Bounds(log, may, steps);
    NobodyHolds(l.g, c1, l.Lh());
    LogAllFits(l.g, us);
    Sized(l.Lh(), Sectors(us), {}, log, may);
    ok := l.CommitTrans();
    WroteThen(c0, c1, l.cache.S(), LogAll(l.g, us).trace, CommitTrace(l.g, c1.disk, LogAll(l.g, us).lh));
  }

  lemma NobodyHolds(g: Geometry, c: State, lh: seq<nat>)
    requires Inv(g, c, lh, {})
    ensures Shape(c) && Idle(c)
  {
    InvParts(g, c, lh, {});
  }

  /** Before step i. */
  lemma ReadyFor(g: Geometry, c: State, steps: seq<Step>, i: nat, log: set<nat>, may: set<nat>)
    requires Steady(c, g, []) && Shape(c) && Idle(c) && g.nlog > 0 && Proper(log, may, {}, steps) && i < |steps|
    requires log <= may && |may| < NBUF && |log| < g.Limit() && forall s :: s in may ==> s < g.start
    ensures var held, r := HeldAfter({}, steps[..i]), ExecAll(g, c, steps[..i]);
            && r.Some? && Inv(g, r.value.0, r.value.1, held) && StepOk(log, may, held, steps[i]) && held <= may
            && |r.value.1| < g.Limit() && |Elems(r.value.1) + held| < NBUF
  {
    hide Inv, Steady, LogAll, Sectors, Wrote, StepOk, Proper, Elems;
    ProperPrefix(log, may, steps, i);
    ScriptRuns(g, c, steps[..i], log, may);
    Bounds(log, may, steps[..i]);
    var us := Logged(steps[..i]);
    LogAllFits(g, us);
    Sized(LogAll(g, us).lh, Sectors(us), HeldAfter({}, steps[..i]), log, may);
  }
}
