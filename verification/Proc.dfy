/** fork, exit, wait and the sleep under them, from proc.c, as a state machine over the
    process table. Work done under ptable.lock in one go is one step; fork's stores to
    its new slot are steps of their own, since it makes them without the lock and can be
    preempted between them, and so is every round of exit's loop over its children. kill
    is not part of this model. */
module Proc {
  import opened Options

  const NPROC: nat := 64

  datatype PState = UNUSED | EMBRYO | SLEEPING | RUNNABLE | RUNNING | ZOMBIE

  /** What a process sleeps on: a process (only wait does that) or something else. */
  datatype Chan = NoChan | OnProc(q: nat) | OnOther(c: nat)

  datatype Parent = Nobody | Is(q: nat)

  datatype Slot = Slot(state: PState, pid: nat, parent: Parent, chan: Chan) {
    /** Neither free nor still being set up. */
    predicate Alive() {
      state == SLEEPING || state == RUNNABLE || state == RUNNING || state == ZOMBIE
    }
  }

  /** Where the process of a slot is: in fork with new slot np, in exit's loop at slot i
      and holding the lock, in wait's scan holding the lock, asleep or woken in wait, or
      anywhere else. */
  datatype Pc = Elsewhere | ForkNew(np: nat) | ForkChild(np: nat) | Exiting(i: nat) | Scanning | InWait

  datatype Lock = Free | By(p: nat)

  /** What a process's last fork or wait returned. */
  datatype Ret = Nothing | Forked(r: int) | Waited(r: int)

  /** The table, the lock, and the pids fork has handed out and wait has returned. */
  datatype Table = Table(
    slot: seq<Slot>, pc: seq<Pc>, ret: seq<Ret>, init: nat, nextpid: nat, lock: Lock,
    forked: set<nat>, returned: seq<nat>)
  {
    predicate Runs(p: nat) {
      p < NPROC && |slot| == NPROC && |pc| == NPROC && slot[p].state == RUNNING
    }

    function Put(p: nat, x: Slot): Table
      requires p < |slot|
    {
      this.(slot := slot[p := x])
    }

    function At(p: nat, x: Pc): Table
      requires p < |pc|
    {
      this.(pc := pc[p := x])
    }

    function Back(p: nat, x: Ret): Table
      requires p < |pc| && p < |ret|
    {
      this.(pc := pc[p := Elsewhere], ret := ret[p := x])
    }
  }

  // ----- The loops over the table -----

  function Woken(x: Slot, chan: Chan): Slot {
    if x.state == SLEEPING && x.chan == chan then x.(state := RUNNABLE) else x
  }

  function WakeAll(slot: seq<Slot>, chan: Chan): (r: seq<Slot>)
    ensures |r| == |slot| && forall p :: 0 <= p < |r| ==> r[p] == Woken(slot[p], chan)
  {
    seq(|slot|, p requires 0 <= p < |slot| => Woken(slot[p], chan))
  }

  /** The first slot from k on that is unused, or the length of the table. */
  function FirstUnused(slot: seq<Slot>, k: nat): (i: nat)
    requires k <= |slot|
    ensures k <= i <= |slot| && (i < |slot| ==> slot[i].state == UNUSED)
    ensures forall j :: k <= j < i ==> slot[j].state != UNUSED
    decreases |slot| - k
  {
    if k == |slot| || slot[k].state == UNUSED then k else FirstUnused(slot, k + 1)
  }

  /** The first zombie child of p from slot k on, or the length of the table. */
  function FirstZombie(slot: seq<Slot>, p: nat, k: nat): (i: nat)
    requires k <= |slot|
    ensures k <= i <= |slot| && (i < |slot| ==> slot[i].state == ZOMBIE && slot[i].parent == Is(p))
    ensures forall j :: k <= j < i ==> !(slot[j].state == ZOMBIE && slot[j].parent == Is(p))
    decreases |slot| - k
  {
    if k == |slot| || (slot[k].state == ZOMBIE && slot[k].parent == Is(p)) then k else FirstZombie(slot, p, k + 1)
  }

  predicate HasKids(slot: seq<Slot>, p: nat) {
    exists j :: 0 <= j < |slot| && slot[j].parent == Is(p)
  }

  /** The table as an object: the scans of wakeup1, allocproc and wait as loops. */
  class ProcessTable {
    var slot: seq<Slot>

    constructor (s: seq<Slot>)
      ensures slot == s
    {
      slot := s;
    }

    method Wakeup1(chan: Chan)
      modifies this
      ensures slot == WakeAll(old(slot), chan)
    {
      var p := 0;
      while p < |slot|
        invariant 0 <= p <= |slot| == |old(slot)|
        invariant forall j :: 0 <= j < p ==> slot[j] == Woken(old(slot)[j], chan)
        invariant forall j :: p <= j < |slot| ==> slot[j] == old(slot)[j]
      {
        if slot[p].state == SLEEPING && slot[p].chan == chan {
          slot := slot[p := slot[p].(state := RUNNABLE)];
        }
        p := p + 1;
      }
    }

    method FindUnused() returns (i: nat)
      ensures i == FirstUnused(slot, 0)
    {
      i := 0;
      while i < |slot| && slot[i].state != UNUSED
        invariant 0 <= i <= |slot| && FirstUnused(slot, 0) == FirstUnused(slot, i)
      {
        i := i + 1;
      }
    }

    method ScanChildren(proc: nat) returns (havekids: bool, zombie: nat)
      ensures zombie == FirstZombie(slot, proc, 0)
      ensures zombie == |slot| ==> havekids == HasKids(slot, proc)
    {
      havekids, zombie := false, 0;
      while zombie < |slot|
        invariant 0 <= zombie <= |slot| && FirstZombie(slot, proc, 0) == FirstZombie(slot, proc, zombie)
        invariant havekids <==> exists j :: 0 <= j < zombie && slot[j].parent == Is(proc)
      {
        if slot[zombie].parent == Is(proc) {
          havekids := true;
          if slot[zombie].state == ZOMBIE {
            return;
          }
        }
        zombie := zombie + 1;
      }
    }
  }

  // ----- Steps -----

  datatype Action =
    | Schedule(p: nat)        // the scheduler switches to p
    | Yield(p: nat)           // the timer, also in the middle of fork
    | SleepOn(p: nat, c: nat) // sleep outside wait
    | Wake(c: nat)
    | ForkAlloc(p: nat)       // allocproc
    | ForkFail(p: nat)        // no memory for the new process
    | ForkAdopt(p: nat)       // np->parent = proc
    | ForkStart(p: nat)       // np->state = RUNNABLE
    | ExitBegin(p: nat)       // take the lock and wake the parent
    | ExitPass(p: nat)        // pass one slot's process to init
    | ExitEnd(p: nat)         // become a zombie
    | WaitBegin(p: nat)
    | WaitScan(p: nat)        // scan, and then return or sleep

  predicate Enabled(t: Table, a: Action) {
    |t.slot| == NPROC && |t.pc| == NPROC && |t.ret| == NPROC &&
    match a
    case Schedule(p) => p < NPROC && t.slot[p].state == RUNNABLE && t.lock.Free?
    case Yield(p) => t.Runs(p) && (t.pc[p] == Elsewhere || Forking(t.pc[p])) && t.lock.Free?
    case SleepOn(p, _) => t.Runs(p) && t.pc[p] == Elsewhere && t.lock.Free?
    case Wake(_) => t.lock.Free?
    case ForkAlloc(p) => t.Runs(p) && t.pc[p] == Elsewhere && t.lock.Free?
    case ForkFail(p) => t.Runs(p) && t.pc[p].ForkNew? && t.pc[p].np < NPROC
    case ForkAdopt(p) => t.Runs(p) && t.pc[p].ForkNew? && t.pc[p].np < NPROC
    case ForkStart(p) => t.Runs(p) && t.pc[p].ForkChild? && t.pc[p].np < NPROC
    case ExitBegin(p) => t.Runs(p) && t.pc[p] == Elsewhere && t.lock.Free? && p != t.init
    case ExitPass(p) => t.Runs(p) && t.pc[p].Exiting? && t.pc[p].i < NPROC
    case ExitEnd(p) => t.Runs(p) && t.pc[p].Exiting? && t.pc[p].i == NPROC
    case WaitBegin(p) => t.Runs(p) && t.pc[p] == Elsewhere && t.lock.Free?
    case WaitScan(p) => t.Runs(p) && t.pc[p] == Scanning
  }

  function ParentChan(x: Slot): Chan {
    if x.parent.Is? then OnProc(x.parent.q) else NoChan
  }

  function Reap(t: Table, p: nat, z: nat): Table
    requires p < |t.pc| && p < |t.ret| && z < |t.slot|
  {
    t.Put(z, Slot(UNUSED, 0, Nobody, t.slot[z].chan)).Back(p, Waited(t.slot[z].pid))
     .(lock := Free, returned := t.returned + [t.slot[z].pid])
  }

  function DoRun(t: Table, a: Action): Table
    requires Enabled(t, a) && (a.Schedule? || a.Yield? || a.SleepOn? || a.Wake?)
  {
    match a
    case Schedule(p) =>
      var u := t.Put(p, t.slot[p].(state := RUNNING, chan := NoChan));
      if t.pc[p] == InWait then u.At(p, Scanning).(lock := By(p)) else u
    case Yield(p) => t.Put(p, t.slot[p].(state := RUNNABLE))
    case SleepOn(p, c) => t.Put(p, t.slot[p].(state := SLEEPING, chan := OnOther(c)))
    case Wake(c) => t.(slot := WakeAll(t.slot, OnOther(c)))
  }

  function DoFork(t: Table, a: Action): Table
    requires Enabled(t, a) && (a.ForkAlloc? || a.ForkFail? || a.ForkAdopt? || a.ForkStart?)
  {
    match a
    case ForkAlloc(p) =>
      var np := FirstUnused(t.slot, 0);
      if np == NPROC then t.Back(p, Forked(-1))
      else
        t.Put(np, t.slot[np].(state := EMBRYO, pid := t.nextpid)).At(p, ForkNew(np)).(nextpid := t.nextpid + 1)
    case ForkFail(p) =>
      var np := t.pc[p].np;
      t.Put(np, t.slot[np].(state := UNUSED)).Back(p, Forked(-1))
    case ForkAdopt(p) =>
      var np := t.pc[p].np;
      t.Put(np, t.slot[np].(parent := Is(p))).At(p, ForkChild(np))
    case ForkStart(p) =>
      var np := t.pc[p].np;
      t.Put(np, t.slot[np].(state := RUNNABLE)).Back(p, Forked(t.slot[np].pid)).(forked := t.forked + {t.slot[np].pid})
  }

  function DoExit(t: Table, a: Action): Table
    requires Enabled(t, a) && (a.ExitBegin? || a.ExitPass? || a.ExitEnd?)
  {
    match a
    case ExitBegin(p) =>
      t.(slot := WakeAll(t.slot, ParentChan(t.slot[p]))).At(p, Exiting(0)).(lock := By(p))
    case ExitPass(p) =>
      var i := t.pc[p].i;
      var u := t.At(p, Exiting(i + 1));
      if t.slot[i].parent != Is(p) then u
      else
        var v := u.Put(i, t.slot[i].(parent := Is(t.init)));
        if t.slot[i].state == ZOMBIE then v.(slot := WakeAll(v.slot, OnProc(t.init))) else v
    case ExitEnd(p) => t.Put(p, t.slot[p].(state := ZOMBIE)).At(p, Elsewhere).(lock := Free)
  }

  function DoWait(t: Table, a: Action): Table
    requires Enabled(t, a) && (a.WaitBegin? || a.WaitScan?)
  {
    match a
    case WaitBegin(p) => t.At(p, Scanning).(lock := By(p))
    case WaitScan(p) =>
      var z := FirstZombie(t.slot, p, 0);
      if z < NPROC then Reap(t, p, z)
      else if !HasKids(t.slot, p) then t.Back(p, Waited(-1)).(lock := Free)
      else t.Put(p, t.slot[p].(state := SLEEPING, chan := OnProc(p))).At(p, InWait).(lock := Free)
  }

  function Do(t: Table, a: Action): Table
    requires Enabled(t, a)
  {
    if a.Schedule? || a.Yield? || a.SleepOn? || a.Wake? then DoRun(t, a)
    else if a.ForkAlloc? || a.ForkFail? || a.ForkAdopt? || a.ForkStart? then DoFork(t, a)
    else if a.ExitBegin? || a.ExitPass? || a.ExitEnd? then DoExit(t, a)
    else DoWait(t, a)
  }

  /** A round of wait's loop by its scan: what it leaves in the table is what the step does. */
  method WaitRound(table: ProcessTable, ghost t: Table, proc: nat) returns (r: Option<int>)
    requires Enabled(t, WaitScan(proc)) && table.slot == t.slot
    modifies table
    ensures table.slot == DoWait(t, WaitScan(proc)).slot
    ensures var u := DoWait(t, WaitScan(proc));
            if r.None? then u.pc[proc] == InWait else u.pc[proc] == Elsewhere && u.ret[proc] == Waited(r.value)
  {
    var havekids, z := table.ScanChildren(proc);
    if z < |table.slot| {
      r := Some(table.slot[z].pid);
      table.slot := table.slot[z := Slot(UNUSED, 0, Nobody, table.slot[z].chan)];
    } else if !havekids {
      r := Some(-1);
    } else {
      r := None;
      table.slot := table.slot[proc := table.slot[proc].(state := SLEEPING, chan := OnProc(proc))];
    }
  }

  /** userinit: only init, ready to run. */
  predicate Init(t: Table) {
    && |t.slot| == NPROC && |t.pc| == NPROC && |t.ret| == NPROC && t.init < NPROC && t.lock == Free
    && t.slot[t.init].state == RUNNABLE && t.slot[t.init].pid < t.nextpid && t.slot[t.init].parent == Nobody
    && t.slot[t.init].chan == NoChan && t.forked == {} && t.returned == []
    && (forall p :: 0 <= p < NPROC ==> t.pc[p] == Elsewhere && (p != t.init ==> t.slot[p] == Slot(UNUSED, 0, Nobody, NoChan)))
  }

  // ----- The invariant -----

  predicate WaitsAsleep(x: Slot, p: nat) {
    x.state == SLEEPING && x.chan == OnProc(p)
  }

  /** Slot p by itself: its program counter, lock and channel agree. */
  predicate SlotOk(t: Table, p: nat)
    requires p < |t.slot| && p < |t.pc|
  {
    var x := t.slot[p];
    && (t.pc[p] != Elsewhere ==>
          || x.state == RUNNING
          || (t.pc[p] == InWait && (WaitsAsleep(x, p) || x.state == RUNNABLE))
          || (Forking(t.pc[p]) && x.state == RUNNABLE))
    && (t.pc[p] == InWait ==> x.state != RUNNING)
    && ((t.pc[p].Exiting? || t.pc[p] == Scanning) <==> t.lock == By(p))
    && (t.pc[p].Exiting? ==> t.pc[p].i <= NPROC && p != t.init)
    && (x.state == SLEEPING && x.chan.OnProc? ==> x.chan.q == p && t.pc[p] == InWait)
    && (x.state == UNUSED ==> x.parent == Nobody)
  }

  predicate Forking(x: Pc) {
    x.ForkNew? || x.ForkChild?
  }

  predicate ForkPair(x: Pc, y: Pc) {
    Forking(x) && Forking(y) ==> x.np != y.np
  }

  /** The slot a process is setting up in fork. */
  predicate ForkOk(t: Table, p: nat)
    requires |t.slot| == NPROC && |t.pc| == NPROC && p < NPROC
  {
    Forking(t.pc[p]) ==>
      && t.pc[p].np < NPROC && t.slot[t.pc[p].np].state == EMBRYO
      && t.slot[t.pc[p].np].parent == (if t.pc[p].ForkChild? then Is(p) else Nobody)
  }

  /** A parent is there and has not exited; only a fork's own new slot has no parent yet. */
  predicate ParentOk(t: Table, c: nat)
    requires |t.slot| == NPROC && |t.pc| == NPROC && c < NPROC
  {
    var x := t.slot[c];
    && (x.parent.Is? ==> x.parent.q != c && x.parent.q < NPROC && t.slot[x.parent.q].Alive() && t.slot[x.parent.q].state != ZOMBIE)
    && (x.state == EMBRYO && x.parent.Is? ==> t.pc[x.parent.q] == ForkChild(c))
    && (x.Alive() && c != t.init ==> x.parent.Is?)
  }

  /** A process in exit has passed on the slots before i, and its parent is awake. */
  predicate ExitOk(t: Table, p: nat)
    requires |t.slot| == NPROC && |t.pc| == NPROC && p < NPROC
  {
    t.pc[p].Exiting? ==>
      && (forall j :: 0 <= j < t.pc[p].i && j < NPROC ==> t.slot[j].parent != Is(p))
      && (t.slot[p].parent.Is? && t.slot[p].parent.q < NPROC ==> !WaitsAsleep(t.slot[t.slot[p].parent.q], t.slot[p].parent.q))
  }

  /** No process sleeps in wait over a zombie child. */
  predicate ZombieOk(t: Table, z: nat)
    requires |t.slot| == NPROC && z < NPROC
  {
    var x := t.slot[z];
    x.state == ZOMBIE && x.parent.Is? && x.parent.q < NPROC ==> !WaitsAsleep(t.slot[x.parent.q], x.parent.q)
  }

  predicate PidOk(t: Table, p: nat)
    requires |t.slot| == NPROC && p < NPROC
  {
    var x := t.slot[p];
    && (x.state != UNUSED ==> x.pid < t.nextpid && x.pid !in t.returned)
    && (x.Alive() && p != t.init ==> x.pid in t.forked)
  }

  predicate Structure(t: Table) {
    && |t.slot| == NPROC && |t.pc| == NPROC && |t.ret| == NPROC && t.init < NPROC
    && t.slot[t.init].Alive() && t.slot[t.init].state != ZOMBIE && t.slot[t.init].parent == Nobody
  }

  predicate Inv(t: Table) {
    && Structure(t)
    && (forall p :: 0 <= p < NPROC ==> SlotOk(t, p))
    && (forall p :: 0 <= p < NPROC ==> ForkOk(t, p))
    && (forall p, q :: 0 <= p < q < NPROC ==> ForkPair(t.pc[p], t.pc[q]))
    && (forall c :: 0 <= c < NPROC ==> ParentOk(t, c))
    && (forall p :: 0 <= p < NPROC ==> ExitOk(t, p))
    && (forall z :: 0 <= z < NPROC ==> ZombieOk(t, z))
    && Pids(t)
  }

  /** pids are used once: by one slot, or by one return of wait. */
  predicate Pids(t: Table)
    requires Structure(t)
  {
    && (forall p :: 0 <= p < NPROC ==> PidOk(t, p))
    && (forall p, q :: 0 <= p < q < NPROC && t.slot[p].state != UNUSED && t.slot[q].state != UNUSED
                       ==> t.slot[p].pid != t.slot[q].pid)
    && (forall i, j :: 0 <= i < j < |t.returned| ==> t.returned[i] != t.returned[j])
    && (forall i :: 0 <= i < |t.returned| ==> t.returned[i] in t.forked)
    && (forall pid :: pid in t.forked ==> pid < t.nextpid)
  }

  lemma InitInv(t: Table)
    requires Init(t)
    ensures Inv(t)
  {
  }

  lemma RunSlot(t: Table, a: Action, p: nat)
    requires Inv(t) && Enabled(t, a) && (a.Schedule? || a.Yield? || a.SleepOn? || a.Wake?) && p < NPROC
    ensures Structure(DoRun(t, a)) && SlotOk(DoRun(t, a), p)
  {
    hide Pids, ZombieOk, ExitOk, FirstUnused, FirstZombie;
    if !a.Wake? {
      assert SlotOk(t, a.p) && ForkOk(t, a.p) && ParentOk(t, a.p);
    }
    assert SlotOk(t, p);
  }

  lemma RunForks(t: Table, a: Action, p: nat, q: nat)
    requires Inv(t) && Enabled(t, a) && (a.Schedule? || a.Yield? || a.SleepOn? || a.Wake?)
    requires p < NPROC && q < NPROC && p != q && Structure(DoRun(t, a))
    ensures ForkOk(DoRun(t, a), p) && ForkPair(DoRun(t, a).pc[p], DoRun(t, a).pc[q])
  {
    hide Pids, ZombieOk, ExitOk, FirstUnused, FirstZombie;
    if !a.Wake? {
      assert SlotOk(t, a.p) && ForkOk(t, a.p) && ParentOk(t, a.p);
    }
    assert SlotOk(t, p) && ForkOk(t, p) && ForkOk(t, q) && ForkPair(t.pc[p], t.pc[q]);
    if !a.Wake? {
      assert a.p < p ==> ForkPair(t.pc[a.p], t.pc[p]);
      assert p < a.p ==> ForkPair(t.pc[p], t.pc[a.p]);
    }
  }

  lemma RunFamily(t: Table, a: Action, p: nat)
    requires Inv(t) && Enabled(t, a) && (a.Schedule? || a.Yield? || a.SleepOn? || a.Wake?) && p < NPROC && Structure(DoRun(t, a))
    ensures ParentOk(DoRun(t, a), p) && ExitOk(DoRun(t, a), p) && ZombieOk(DoRun(t, a), p)
  {
    hide Pids, FirstUnused, FirstZombie;
    if !a.Wake? {
      assert SlotOk(t, a.p) && ForkOk(t, a.p) && ParentOk(t, a.p) && ExitOk(t, a.p);
    }
    assert SlotOk(t, p) && ParentOk(t, p) && ExitOk(t, p) && ZombieOk(t, p);
  }

  lemma ForkSlot(t: Table, a: Action, p: nat)
    requires Inv(t) && Enabled(t, a) && (a.ForkAlloc? || a.ForkFail? || a.ForkAdopt? || a.ForkStart?) && p < NPROC
    ensures Structure(DoFork(t, a)) && SlotOk(DoFork(t, a), p)
  {
    hide Pids, ZombieOk, ExitOk, FirstUnused, FirstZombie;
    assert SlotOk(t, a.p) && ForkOk(t, a.p) && ParentOk(t, a.p);
    var n := FirstUnused(t.slot, 0);
    if n < NPROC {
      assert SlotOk(t, n);
    }
    assert SlotOk(t, p);
  }

  lemma ForkForks(t: Table, a: Action, p: nat, q: nat)
    requires Inv(t) && Enabled(t, a) && (a.ForkAlloc? || a.ForkFail? || a.ForkAdopt? || a.ForkStart?)
    requires p < NPROC && q < NPROC && p != q && Structure(DoFork(t, a))
    ensures ForkOk(DoFork(t, a), p) && ForkPair(DoFork(t, a).pc[p], DoFork(t, a).pc[q])
  {
    hide Pids, ZombieOk, ExitOk, FirstUnused, FirstZombie;
    assert SlotOk(t, a.p) && ForkOk(t, a.p) && ParentOk(t, a.p);
    var n := FirstUnused(t.slot, 0);
    if n < NPROC {
      assert SlotOk(t, n);
    }
    assert SlotOk(t, p) && ForkOk(t, p) && ForkOk(t, q) && ForkPair(t.pc[p], t.pc[q]);
    if !a.Wake? {
      assert a.p < p ==> ForkPair(t.pc[a.p], t.pc[p]);
      assert p < a.p ==> ForkPair(t.pc[p], t.pc[a.p]);
    }
  }

  lemma ForkParents(t: Table, a: Action, p: nat)
    requires Inv(t) && Enabled(t, a) && (a.ForkAlloc? || a.ForkFail? || a.ForkAdopt? || a.ForkStart?)
    requires p < NPROC && Structure(DoFork(t, a))
    ensures ParentOk(DoFork(t, a), p)
  {
    hide Pids, FirstUnused, ZombieOk, ExitOk;
    assert SlotOk(t, a.p) && ForkOk(t, a.p) && ParentOk(t, a.p);
    var n := FirstUnused(t.slot, 0);
    if n < NPROC {
      assert SlotOk(t, n);
    }
    assert SlotOk(t, p) && ParentOk(t, p);
  }

  lemma ForkFamily(t: Table, a: Action, p: nat)
    requires Inv(t) && Enabled(t, a) && (a.ForkAlloc? || a.ForkFail? || a.ForkAdopt? || a.ForkStart?)
    requires p < NPROC && Structure(DoFork(t, a))
    ensures ExitOk(DoFork(t, a), p) && ZombieOk(DoFork(t, a), p)
  {
    hide Pids, FirstUnused;
    assert SlotOk(t, a.p) && ForkOk(t, a.p) && ParentOk(t, a.p) && ExitOk(t, a.p);
    var n := FirstUnused(t.slot, 0);
    if n < NPROC {
      assert SlotOk(t, n);
    }
    assert SlotOk(t, p) && ParentOk(t, p) && ExitOk(t, p) && ZombieOk(t, p);
  }

  lemma PassSlot(t: Table, a: Action, p: nat)
    requires Inv(t) && Enabled(t, a) && a.ExitPass? && p < NPROC
    ensures Structure(DoExit(t, a)) && SlotOk(DoExit(t, a), p)
  {
    hide Pids, ZombieOk, ExitOk;
    assert SlotOk(t, a.p) && ForkOk(t, a.p) && ParentOk(t, a.p);
    assert ParentOk(t, t.pc[a.p].i) && SlotOk(t, t.pc[a.p].i);
    assert SlotOk(t, p);
  }

  lemma PassForks(t: Table, a: Action, p: nat, q: nat)
    requires Inv(t) && Enabled(t, a) && a.ExitPass? && p < NPROC && q < NPROC && p != q && Structure(DoExit(t, a))
    ensures ForkOk(DoExit(t, a), p) && ForkPair(DoExit(t, a).pc[p], DoExit(t, a).pc[q])
  {
    hide Pids, ZombieOk, ExitOk;
    assert SlotOk(t, a.p) && ForkOk(t, a.p) && ParentOk(t, a.p);
    assert ParentOk(t, t.pc[a.p].i) && SlotOk(t, t.pc[a.p].i);
    assert SlotOk(t, p) && ForkOk(t, p) && ForkOk(t, q) && ForkPair(t.pc[p], t.pc[q]);
  }

  lemma PassParents(t: Table, a: Action, p: nat)
    requires Inv(t) && Enabled(t, a) && a.ExitPass? && p < NPROC && Structure(DoExit(t, a))
    ensures ParentOk(DoExit(t, a), p)
  {
    hide Pids, ZombieOk;
    assert SlotOk(t, a.p) && ForkOk(t, a.p) && ParentOk(t, a.p) && ExitOk(t, a.p);
    assert ParentOk(t, t.pc[a.p].i) && SlotOk(t, t.pc[a.p].i);
    assert SlotOk(t, p) && ParentOk(t, p);
  }

  lemma PassFamily(t: Table, a: Action, p: nat)
    requires Inv(t) && Enabled(t, a) && a.ExitPass? && p < NPROC && Structure(DoExit(t, a))
    ensures ExitOk(DoExit(t, a), p) && ZombieOk(DoExit(t, a), p)
  {
    hide Pids;
    assert SlotOk(t, a.p) && ForkOk(t, a.p) && ParentOk(t, a.p) && ExitOk(t, a.p);
    assert ParentOk(t, t.pc[a.p].i) && SlotOk(t, t.pc[a.p].i);
    assert SlotOk(t, p) && ParentOk(t, p) && ExitOk(t, p) && ZombieOk(t, p);
  }

  lemma ExitSlot(t: Table, a: Action, p: nat)
    requires Inv(t) && Enabled(t, a) && (a.ExitBegin? || a.ExitEnd?) && p < NPROC
    ensures Structure(DoExit(t, a)) && SlotOk(DoExit(t, a), p)
  {
    hide Pids, ZombieOk, ExitOk;
    assert SlotOk(t, a.p) && ForkOk(t, a.p) && ParentOk(t, a.p);
    assert SlotOk(t, p);
  }

  lemma ExitForks(t: Table, a: Action, p: nat, q: nat)
    requires Inv(t) && Enabled(t, a) && (a.ExitBegin? || a.ExitEnd?) && p < NPROC && q < NPROC && p != q && Structure(DoExit(t, a))
    ensures ForkOk(DoExit(t, a), p) && ForkPair(DoExit(t, a).pc[p], DoExit(t, a).pc[q])
  {
    hide Pids, ZombieOk, ExitOk;
    assert SlotOk(t, a.p) && ForkOk(t, a.p) && ParentOk(t, a.p);
    assert SlotOk(t, p) && ForkOk(t, p) && ForkOk(t, q) && ForkPair(t.pc[p], t.pc[q]);
  }

  lemma ExitParents(t: Table, a: Action, p: nat)
    requires Inv(t) && Enabled(t, a) && (a.ExitBegin? || a.ExitEnd?) && p < NPROC && Structure(DoExit(t, a))
    ensures ParentOk(DoExit(t, a), p)
  {
    hide Pids, ZombieOk;
    assert SlotOk(t, a.p) && ForkOk(t, a.p) && ParentOk(t, a.p) && ExitOk(t, a.p);
    assert SlotOk(t, p) && ParentOk(t, p);
  }

  lemma ExitFamily(t: Table, a: Action, p: nat)
    requires Inv(t) && Enabled(t, a) && (a.ExitBegin? || a.ExitEnd?) && p < NPROC && Structure(DoExit(t, a))
    ensures ExitOk(DoExit(t, a), p) && ZombieOk(DoExit(t, a), p)
  {
    hide Pids;
    assert SlotOk(t, a.p) && ForkOk(t, a.p) && ParentOk(t, a.p) && ExitOk(t, a.p);
    assert SlotOk(t, p) && ParentOk(t, p) && ExitOk(t, p) && ZombieOk(t, p);
  }

  lemma WaitSlot(t: Table, a: Action, p: nat)
    requires Inv(t) && Enabled(t, a) && (a.WaitBegin? || a.WaitScan?) && p < NPROC
    ensures Structure(DoWait(t, a)) && SlotOk(DoWait(t, a), p)
  {
    hide Pids, ZombieOk, ExitOk, FirstUnused, FirstZombie;
    assert SlotOk(t, a.p) && ForkOk(t, a.p) && ParentOk(t, a.p);
    assert SlotOk(t, p);
  }

  lemma WaitForks(t: Table, a: Action, p: nat, q: nat)
    requires Inv(t) && Enabled(t, a) && (a.WaitBegin? || a.WaitScan?) && p < NPROC && q < NPROC && p != q && Structure(DoWait(t, a))
    ensures ForkOk(DoWait(t, a), p) && ForkPair(DoWait(t, a).pc[p], DoWait(t, a).pc[q])
  {
    hide Pids, ZombieOk, ExitOk, FirstUnused, FirstZombie;
    assert SlotOk(t, a.p) && ForkOk(t, a.p) && ParentOk(t, a.p);
    assert SlotOk(t, p) && ForkOk(t, p) && ForkOk(t, q) && ForkPair(t.pc[p], t.pc[q]);
    if !a.Wake? {
      assert a.p < p ==> ForkPair(t.pc[a.p], t.pc[p]);
      assert p < a.p ==> ForkPair(t.pc[p], t.pc[a.p]);
    }
  }

  lemma WaitParents(t: Table, a: Action, p: nat)
    requires Inv(t) && Enabled(t, a) && (a.WaitBegin? || a.WaitScan?) && p < NPROC && Structure(DoWait(t, a))
    ensures ParentOk(DoWait(t, a), p)
  {
    hide Pids, ZombieOk, FirstZombie;
    assert SlotOk(t, a.p) && ForkOk(t, a.p) && ParentOk(t, a.p) && ExitOk(t, a.p);
    assert SlotOk(t, p) && ParentOk(t, p);
  }

  lemma WaitFamily(t: Table, a: Action, p: nat)
    requires Inv(t) && Enabled(t, a) && (a.WaitBegin? || a.WaitScan?) && p < NPROC && Structure(DoWait(t, a))
    ensures ParentOk(DoWait(t, a), p) && ExitOk(DoWait(t, a), p) && ZombieOk(DoWait(t, a), p)
  {
    hide Pids, FirstZombie;
    WaitParents(t, a, p);
    assert SlotOk(t, a.p) && ForkOk(t, a.p) && ParentOk(t, a.p) && ExitOk(t, a.p);
    assert SlotOk(t, p) && ParentOk(t, p) && ExitOk(t, p) && ZombieOk(t, p);
  }

  /** Steps that neither start, free nor number a process. */
  lemma PidsSame(t: Table, u: Table)
    requires Structure(t) && Structure(u) && Pids(t) && u.init == t.init
    requires u.nextpid == t.nextpid && u.forked == t.forked && u.returned == t.returned
    requires forall p :: 0 <= p < NPROC ==>
               && u.slot[p].pid == t.slot[p].pid
               && (u.slot[p].state == UNUSED <==> t.slot[p].state == UNUSED) && (u.slot[p].Alive() ==> t.slot[p].Alive())
    ensures Pids(u)
  {
    forall p | 0 <= p < NPROC ensures PidOk(u, p) {
      assert PidOk(t, p);
    }
  }

  lemma ForkPids(t: Table, a: Action)
    requires Inv(t) && Enabled(t, a) && (a.ForkAlloc? || a.ForkFail? || a.ForkAdopt? || a.ForkStart?)
    requires Structure(DoFork(t, a))
    ensures Pids(DoFork(t, a))
  {
    hide ZombieOk, ExitOk, ParentOk, FirstUnused;
    assert ForkOk(t, a.p);
    var u := DoFork(t, a);
    assert forall pid :: pid in t.returned ==> pid in t.forked;
    forall p | 0 <= p < NPROC ensures PidOk(u, p) {
      assert PidOk(t, p);
    }
    if a.ForkStart? {
      assert PidOk(t, t.pc[a.p].np);
    }
    forall p, q | 0 <= p < q < NPROC && u.slot[p].state != UNUSED && u.slot[q].state != UNUSED
      ensures u.slot[p].pid != u.slot[q].pid
    {
      assert PidOk(t, p) && PidOk(t, q);
    }
  }

  lemma WaitPids(t: Table, a: Action)
    requires Inv(t) && Enabled(t, a) && (a.WaitBegin? || a.WaitScan?) && Structure(DoWait(t, a))
    ensures Pids(DoWait(t, a))
  {
    hide ZombieOk, ExitOk, ParentOk, FirstZombie;
    var u := DoWait(t, a);
    forall p | 0 <= p < NPROC ensures PidOk(u, p) {
      assert PidOk(t, p);
      if a.WaitScan? {
        var z := FirstZombie(t.slot, a.p, 0);
        assert z < NPROC ==> PidOk(t, z);
      }
    }
    if a.WaitScan? {
      var z := FirstZombie(t.slot, a.p, 0);
      assert z < NPROC ==> PidOk(t, z);
    }
  }

  /** One process's part of the invariant, and one pair's. */
  predicate PartOk(t: Table, p: nat)
    requires Structure(t) && p < NPROC
  {
    SlotOk(t, p) && ForkOk(t, p) && ParentOk(t, p) && ExitOk(t, p) && ZombieOk(t, p)
  }

  lemma DoPart(t: Table, a: Action, p: nat, q: nat)
    requires Inv(t) && Enabled(t, a) && p < NPROC && q < NPROC && p != q
    ensures Structure(Do(t, a)) && PartOk(Do(t, a), p) && ForkPair(Do(t, a).pc[p], Do(t, a).pc[q])
  {
    hide DoRun, DoFork, DoExit, DoWait, Inv, Structure, SlotOk, ForkOk, ParentOk, ExitOk, ZombieOk, ForkPair;
    if a.Schedule? || a.Yield? || a.SleepOn? || a.Wake? {
      RunSlot(t, a, p);
      RunForks(t, a, p, q);
      RunFamily(t, a, p);
    } else if a.ForkAlloc? || a.ForkFail? || a.ForkAdopt? || a.ForkStart? {
      ForkSlot(t, a, p);
      ForkForks(t, a, p, q);
      ForkParents(t, a, p);
      ForkFamily(t, a, p);
    } else if a.ExitPass? {
      PassSlot(t, a, p);
      PassForks(t, a, p, q);
      PassParents(t, a, p);
      PassFamily(t, a, p);
    } else if a.ExitBegin? || a.ExitEnd? {
      ExitSlot(t, a, p);
      ExitForks(t, a, p, q);
      ExitParents(t, a, p);
      ExitFamily(t, a, p);
    } else {
      WaitSlot(t, a, p);
      WaitForks(t, a, p, q);
      WaitFamily(t, a, p);
    }
  }

  lemma DoPids(t: Table, a: Action)
    requires Inv(t) && Enabled(t, a) && Structure(Do(t, a))
    ensures Pids(Do(t, a))
  {
    hide Pids, SlotOk, ForkOk, ParentOk, ExitOk, ZombieOk, DoFork, DoWait;
    if a.ForkAlloc? || a.ForkFail? || a.ForkAdopt? || a.ForkStart? {
      ForkPids(t, a);
    } else if a.WaitBegin? || a.WaitScan? {
      WaitPids(t, a);
    } else {
      PidsSame(t, Do(t, a));
    }
  }

  lemma DoInv(t: Table, a: Action)
    requires Inv(t) && Enabled(t, a)
    ensures Inv(Do(t, a))
  {
    hide Do, SlotOk, ForkOk, ParentOk, ExitOk, ZombieOk, ForkPair, Pids;
    DoPart(t, a, 0, 1);
    DoPids(t, a);
    var u := Do(t, a);
    forall p | 0 <= p < NPROC ensures PartOk(u, p) {
      DoPart(t, a, p, if p == 0 then 1 else 0);
    }
    forall p, q | 0 <= p < q < NPROC ensures ForkPair(u.pc[p], u.pc[q]) {
      DoPart(t, a, p, q);
    }
    forall p | 0 <= p < NPROC
      ensures SlotOk(u, p) && ForkOk(u, p) && ParentOk(u, p) && ExitOk(u, p) && ZombieOk(u, p)
    {
      assert PartOk(u, p);
    }
  }

  // ----- What fork, wait and exit do for their callers -----

  predicate Zombie(t: Table, p: nat, c: nat)
    requires |t.slot| == NPROC && c < NPROC
  {
    t.slot[c].parent == Is(p) && t.slot[c].state == ZOMBIE
  }

  /** wait comes back with -1 from a state where p is nobody's parent, and else with the pid
      of a zombie child, whose slot and no other it frees. */
  predicate WaitBack(t: Table, u: Table, p: nat)
    requires |t.slot| == NPROC && |u.ret| == NPROC && p < NPROC
  {
    || (u.ret[p] == Waited(-1) && u.slot == t.slot && forall c :: 0 <= c < NPROC ==> t.slot[c].parent != Is(p))
    || (exists z :: 0 <= z < NPROC && Zombie(t, p, z) && u.ret[p] == Waited(t.slot[z].pid)
          && u.slot == t.slot[z := Slot(UNUSED, 0, Nobody, t.slot[z].chan)])
  }

  /** p in wait, from one state to the next, whoever makes the step: it returns as it should,
      or falls asleep with children of which none is a zombie, or goes on. */
  predicate Waiting(t: Table, u: Table, p: nat)
    requires |t.slot| == NPROC && |u.slot| == NPROC && |t.pc| == NPROC && |u.pc| == NPROC && |u.ret| == NPROC && p < NPROC
  {
    && (t.pc[p] == Scanning ==>
          || u.pc[p] == Scanning
          || (u.pc[p] == Elsewhere && WaitBack(t, u, p))
          || (u.pc[p] == InWait && WaitsAsleep(u.slot[p], p) && HasKids(t.slot, p) && forall c :: 0 <= c < NPROC ==> !Zombie(t, p, c)))
    && (t.pc[p] == InWait ==> u.pc[p] == InWait || u.pc[p] == Scanning)
    && (t.pc[p] == Elsewhere ==> u.pc[p] != InWait)
  }

  /** p in fork: it comes back with the pid of a new child of its own that is ready to run,
      or with -1 and the slot free again. */
  predicate ForkingOn(t: Table, u: Table, p: nat)
    requires |t.slot| == NPROC && |u.slot| == NPROC && |t.pc| == NPROC && |u.pc| == NPROC && |u.ret| == NPROC && p < NPROC
  {
    Forking(t.pc[p]) && t.pc[p].np < NPROC ==>
      var np := t.pc[p].np;
      || u.pc[p] == t.pc[p]
      || (t.pc[p].ForkNew? && u.pc[p] == ForkChild(np))
      || (t.pc[p].ForkNew? && u.pc[p] == Elsewhere && u.ret[p] == Forked(-1) && u.slot[np].state == UNUSED && u.forked == t.forked)
      || (u.pc[p] == Elsewhere && u.slot[np].state == RUNNABLE && u.slot[np].parent == Is(p) && u.slot[np].pid == t.slot[np].pid
            && u.ret[p] == Forked(u.slot[np].pid) && u.slot[np].pid !in t.returned && u.slot[np].pid in u.forked)
  }

  /** A zombie stays one until the wait of its parent returns its pid; it may be passed on
      to init. */
  predicate ZombieStays(t: Table, u: Table, z: nat)
    requires |t.slot| == NPROC && |u.slot| == NPROC && |t.pc| == NPROC && |u.ret| == NPROC && z < NPROC
  {
    t.slot[z].state == ZOMBIE ==>
      || u.slot[z] == t.slot[z] || u.slot[z] == t.slot[z].(parent := Is(t.init))
      || exists p :: 0 <= p < NPROC && t.pc[p] == Scanning && t.slot[z].parent == Is(p) && u.ret[p] == Waited(t.slot[z].pid)
  }

  /** The steps in which a call is decided do decide it. */
  predicate Decides(t: Table, a: Action, u: Table)
    requires Enabled(t, a) && |u.slot| == NPROC && |u.pc| == NPROC && |u.ret| == NPROC
  {
    match a
    case WaitBegin(p) => u.pc[p] == Scanning
    case WaitScan(p) => u.pc[p] != Scanning
    case ForkAlloc(p) =>
      if forall j :: 0 <= j < NPROC ==> t.slot[j].state != UNUSED then u.slot == t.slot && u.pc[p] == Elsewhere && u.ret[p] == Forked(-1)
      else u.pc[p].ForkNew? && u.pc[p].np < NPROC && t.slot[u.pc[p].np].state == UNUSED && u.slot[u.pc[p].np].pid == t.nextpid
    case ForkStart(p) => u.pc[p] == Elsewhere && u.ret[p].Forked? && u.ret[p].r >= 0
    case ExitEnd(p) => u.slot[p].state == ZOMBIE && forall c :: 0 <= c < NPROC ==> u.slot[c].parent != Is(p)
    case _ => true
  }

  /** Everything a step keeps to. */
  predicate Kept(t: Table, a: Action, u: Table)
    requires Enabled(t, a) && |u.slot| == NPROC && |u.pc| == NPROC && |u.ret| == NPROC
  {
    && Decides(t, a, u)
    && (forall p :: 0 <= p < NPROC ==> Waiting(t, u, p))
    && (forall p :: 0 <= p < NPROC ==> ForkingOn(t, u, p))
    && (forall z :: 0 <= z < NPROC ==> ZombieStays(t, u, z))
  }

  lemma ScanWaiting(t: Table, p: nat)
    requires Inv(t) && Enabled(t, WaitScan(p))
    ensures Structure(DoWait(t, WaitScan(p))) && Waiting(t, DoWait(t, WaitScan(p)), p) && DoWait(t, WaitScan(p)).pc[p] != Scanning
  {
    hide FirstZombie, Pids, SlotOk, ForkOk, ParentOk, ExitOk, ZombieOk, ForkPair;
    WaitSlot(t, WaitScan(p), p);
    var z := FirstZombie(t.slot, p, 0);
    if z < NPROC {
      assert Zombie(t, p, z);
    }
  }

  lemma DoWaiting(t: Table, a: Action, p: nat)
    requires Inv(t) && Enabled(t, a) && p < NPROC
    ensures Structure(Do(t, a)) && Waiting(t, Do(t, a), p)
  {
    hide WaitBack, Zombie, Pids, FirstZombie, FirstUnused, ForkOk, ParentOk, ExitOk, ZombieOk, ForkPair;
    DoPart(t, a, p, if p == 0 then 1 else 0);
    assert SlotOk(t, p);
    if a == WaitScan(p) {
      ScanWaiting(t, p);
    }
  }

  lemma DoForkingOn(t: Table, a: Action, p: nat)
    requires Inv(t) && Enabled(t, a) && p < NPROC
    ensures Structure(Do(t, a)) && ForkingOn(t, Do(t, a), p)
  {
    hide FirstZombie, FirstUnused, ExitOk, ZombieOk, SlotOk, ParentOk;
    DoPart(t, a, p, if p == 0 then 1 else 0);
    assert ForkOk(t, p);
    if Forking(t.pc[p]) {
      assert PidOk(t, t.pc[p].np);
    }
  }

  lemma DoZombieStays(t: Table, a: Action, z: nat)
    requires Inv(t) && Enabled(t, a) && z < NPROC
    ensures Structure(Do(t, a)) && ZombieStays(t, Do(t, a), z)
  {
    hide Pids, FirstZombie, FirstUnused, ParentOk, ExitOk, ZombieOk, ForkPair;
    DoPart(t, a, z, if z == 0 then 1 else 0);
    assert SlotOk(t, z);
    if !a.Wake? {
      assert ForkOk(t, a.p) && SlotOk(t, a.p);
    }
  }

  lemma DoDecides(t: Table, a: Action)
    requires Inv(t) && Enabled(t, a)
    ensures Structure(Do(t, a)) && Decides(t, a, Do(t, a))
  {
    hide Pids, FirstZombie, FirstUnused, ParentOk, ZombieOk, ForkPair, SlotOk, ForkOk;
    DoPart(t, a, 0, 1);
    if a.WaitScan? {
      ScanWaiting(t, a.p);
    }
    if a.ExitEnd? {
      assert ExitOk(t, a.p);
    }
  }

  lemma DoKept(t: Table, a: Action)
    requires Inv(t) && Enabled(t, a)
    ensures Structure(Do(t, a)) && Kept(t, a, Do(t, a))
  {
    hide Do, Inv, Decides, Waiting, ForkingOn, ZombieStays;
    DoDecides(t, a);
    forall p | 0 <= p < NPROC ensures Waiting(t, Do(t, a), p) && ForkingOn(t, Do(t, a), p) && ZombieStays(t, Do(t, a), p) {
      DoWaiting(t, a, p);
      DoForkingOn(t, a, p);
      DoZombieStays(t, a, p);
    }
  }

  /** Who waits has children. */
  predicate Parents(t: Table)
    requires Structure(t)
  {
    forall p :: 0 <= p < NPROC && t.pc[p] == InWait ==> HasKids(t.slot, p)
  }

  /** Nobody takes the child of a process that waits. */
  lemma KidStays(t: Table, a: Action, p: nat, c: nat)
    requires Inv(t) && Enabled(t, a) && p < NPROC && c < NPROC && t.pc[p] == InWait && t.slot[c].parent == Is(p)
    ensures Structure(Do(t, a)) && Do(t, a).slot[c].parent == Is(p)
  {
    hide Pids, FirstZombie, FirstUnused, ExitOk, ZombieOk, ForkPair;
    DoPart(t, a, 0, 1);
    assert SlotOk(t, p) && SlotOk(t, c);
    if !a.Wake? {
      assert ForkOk(t, a.p) && SlotOk(t, a.p);
    }
  }

  lemma DoParents(t: Table, a: Action)
    requires Inv(t) && Enabled(t, a) && Parents(t)
    ensures Structure(Do(t, a)) && Parents(Do(t, a))
  {
    hide Do, Pids, WaitBack, SlotOk, ForkOk, ParentOk, ExitOk, ZombieOk, ForkPair;
    var u := Do(t, a);
    DoPart(t, a, 0, 1);
    forall p | 0 <= p < NPROC && u.pc[p] == InWait ensures HasKids(u.slot, p) {
      DoWaiting(t, a, p);
      if t.pc[p] != InWait {
        FallsAsleep(t, a, p);
      }
      var c :| 0 <= c < NPROC && t.slot[c].parent == Is(p);
      if t.pc[p] == InWait {
        KidStays(t, a, p, c);
      }
    }
  }

  /** Falling asleep in wait leaves all parents as they are. */
  lemma FallsAsleep(t: Table, a: Action, p: nat)
    requires Inv(t) && Enabled(t, a) && p < NPROC && Structure(Do(t, a)) && Do(t, a).pc[p] == InWait && t.pc[p] != InWait
    ensures t.pc[p] == Scanning && forall c :: 0 <= c < NPROC ==> Do(t, a).slot[c].parent == t.slot[c].parent
  {
    hide Pids, FirstZombie, FirstUnused, ParentOk, ExitOk, ZombieOk, ForkPair, SlotOk, ForkOk;
  }

  // ----- Every run -----

  ghost predicate Run(run: seq<Table>, acts: seq<Action>) {
    && |run| == |acts| + 1 && Init(run[0])
    && forall i :: 0 <= i < |acts| ==> Enabled(run[i], acts[i]) && run[i + 1] == Do(run[i], acts[i])
  }

  lemma {:induction false} RunInv(run: seq<Table>, acts: seq<Action>, k: nat)
    requires Run(run, acts) && k < |run|
    ensures Inv(run[k]) && Parents(run[k])
  {
    hide Inv, Init, Do, Enabled, Parents;
    if k == 0 {
      InitInv(run[0]);
      InitParents(run[0]);
    } else {
      RunInv(run, acts, k - 1);
      assert run[k - 1 + 1] == Do(run[k - 1], acts[k - 1]);
      DoInv(run[k - 1], acts[k - 1]);
      DoParents(run[k - 1], acts[k - 1]);
    }
  }

  lemma InitParents(t: Table)
    requires Init(t) && Structure(t)
    ensures Parents(t)
  {
  }

  /** No process sleeps in wait over a zombie child. */
  predicate NoneForgotten(t: Table)
    requires |t.slot| == NPROC
  {
    forall p, z :: 0 <= p < NPROC && 0 <= z < NPROC && WaitsAsleep(t.slot[p], p) && t.slot[z].parent == Is(p)
                   ==> t.slot[z].state != ZOMBIE
  }

  /** Every process but init has a parent, whose slot is neither free nor a zombie. */
  predicate NoOrphans(t: Table)
    requires |t.slot| == NPROC
  {
    forall c :: 0 <= c < NPROC && c != t.init && t.slot[c].Alive() ==>
      && t.slot[c].parent.Is? && t.slot[c].parent.q < NPROC
      && t.slot[t.slot[c].parent.q].state != UNUSED && t.slot[t.slot[c].parent.q].state != ZOMBIE
  }

  lemma InvForgetsNone(t: Table)
    requires Inv(t)
    ensures NoneForgotten(t)
  {
    hide SlotOk, ForkOk, ParentOk, ExitOk, Pids;
    forall p, z | 0 <= p < NPROC && 0 <= z < NPROC && WaitsAsleep(t.slot[p], p) && t.slot[z].parent == Is(p)
      ensures t.slot[z].state != ZOMBIE
    {
      assert ZombieOk(t, z);
    }
  }

  lemma InvNoOrphans(t: Table)
    requires Inv(t)
    ensures NoOrphans(t)
  {
    hide SlotOk, ForkOk, ZombieOk, ExitOk, Pids;
    forall c | 0 <= c < NPROC && c != t.init && t.slot[c].Alive()
      ensures t.slot[c].parent.Is? && t.slot[c].parent.q < NPROC
      ensures t.slot[t.slot[c].parent.q].state != UNUSED && t.slot[t.slot[c].parent.q].state != ZOMBIE
    {
      assert ParentOk(t, c);
    }
  }

  /** In every state of every run: a process asleep in wait has children and no zombie among
      them; every process but init has a parent that has not exited; and the pids wait has
      returned are pids of forked processes, each returned once. */
  lemma WaitExitSafe(run: seq<Table>, acts: seq<Action>, k: nat)
    requires Run(run, acts) && k < |run|
    ensures |run[k].slot| == NPROC && NoneForgotten(run[k]) && NoOrphans(run[k])
    ensures forall p :: 0 <= p < NPROC && WaitsAsleep(run[k].slot[p], p) ==> HasKids(run[k].slot, p)
    ensures var r := run[k].returned;
            && (forall i, j :: 0 <= i < j < |r| ==> r[i] != r[j])
            && (forall i :: 0 <= i < |r| ==> r[i] in run[k].forked)
  {
    hide NoneForgotten, NoOrphans, ForkOk, ParentOk, ExitOk, ZombieOk;
    RunInv(run, acts, k);
    InvForgetsNone(run[k]);
    InvNoOrphans(run[k]);
    forall p | 0 <= p < NPROC && WaitsAsleep(run[k].slot[p], p) ensures HasKids(run[k].slot, p) {
      assert SlotOk(run[k], p);
    }
  }

  /** In every step of every run: wait returns -1 exactly if the caller is nobody's parent, the
      pid of a zombie child if there is one, and else sleeps; a fork that succeeds returns
      the pid of a new child of the caller that is ready to run, and one that fails leaves
      none; a process that exits has no children left; and a zombie stays one until its
      parent's wait returns it. */
  lemma CallsKeep(run: seq<Table>, acts: seq<Action>, k: nat)
    requires Run(run, acts) && k < |acts|
    ensures Enabled(run[k], acts[k]) && Structure(run[k + 1]) && Kept(run[k], acts[k], run[k + 1])
  {
    hide Kept, Do, Inv, Enabled;
    RunInv(run, acts, k);
    DoKept(run[k], acts[k]);
  }
}
