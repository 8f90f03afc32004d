/** ide.c as a state machine: any number of processes in iderw, the drive, and the
    interrupt handler, interleaved wherever idelock allows. It does to buffers and disk
    what iderw of memide.c does, one request at a time in the order they were queued.
    sleep gives up the lock and marks the process asleep in one step, which is what
    ptable.lock makes of it for wakeup. The drive has no errors and interrupts once for
    every command. The main theorem is IdeRefines, over every run. */
module Ide {
  import opened Blocks
  import opened Memide

  // ----- memide.c -----

  datatype Mem = Mem(disk: seq<Block>, buf: seq<Buf>)

  /** iderw of memide.c on a buffer that is ready. */
  function MemRw(m: Mem, b: nat): (m': Mem)
    ensures |m'.disk| == |m.disk| && |m'.buf| == |m.buf|
  {
    if b < |m.buf| && m.buf[b].sector < |m.disk| then
      var x := m.buf[b];
      Mem(Stored(m.disk, x), m.buf[b := Settled(x, m.disk[x.sector])])
    else m
  }

  /** A call of iderw, or anything else that happens to a buffer. */
  datatype Event = Rw(b: nat) | Change(b: nat, x: Buf)

  function MemStep(m: Mem, e: Event): (m': Mem)
    ensures |m'.disk| == |m.disk| && |m'.buf| == |m.buf|
  {
    match e
    case Rw(b) => MemRw(m, b)
    case Change(b, x) => if b < |m.buf| then m.(buf := m.buf[b := x]) else m
  }

  function MemRun(m: Mem, es: seq<Event>): Mem {
    if es == [] then m else MemStep(MemRun(m, es[..|es| - 1]), es[|es| - 1])
  }

  /** The buffers of the iderw calls, in order. */
  function Rws(es: seq<Event>): seq<nat> {
    if es == [] then []
    else
      var e := es[|es| - 1];
      Rws(es[..|es| - 1]) + if e.Rw? then [e.b] else []
  }

  // ----- The driver -----

  datatype Cmd = Read(sector: nat) | Write(sector: nat, data: Block)

  /** The drive works on a command, or has done it; got is what a read transfers. */
  datatype Drive = Off | Busy(cmd: Cmd) | Done(cmd: Cmd, got: Block)

  datatype Lock = Free | By(p: nat) | ByIntr

  /** Where a process is in iderw; t is the place of its request among all requests. */
  datatype Pc =
    | Idle
    | Enter(b: nat)
    | Append(b: nat)
    | Start(b: nat, t: nat)
    | Check(b: nat, t: nat)
    | Asleep(b: nat, t: nat)
    | Awake(b: nat, t: nat)
    | Leave(b: nat, t: nat)
  {
    predicate HasLock() {
      Append? || Start? || Check? || Leave?
    }

    /** Its request has been queued. */
    predicate Waits() {
      Start? || Check? || Asleep? || Awake? || Leave?
    }
  }

  /** Where the interrupt handler is. */
  datatype Intr = None | IEnter | IPop | IFill(b: nat) | IWake(b: nat) | INext | ILeave
  {
    predicate HasLock() {
      IPop? || IFill? || IWake? || INext? || ILeave?
    }
  }

  /** `queued` are all requests ever queued, the first `popped` of them taken from the
      queue again; `plain` is memide's machine after `events`. */
  datatype State = State(
    buf: seq<Buf>, disk: seq<Block>, head: nat, qnext: seq<nat>, lock: Lock, drive: Drive, pc: seq<Pc>, intr: Intr,
    queued: seq<nat>, popped: nat, plain: Mem, events: seq<Event>)
  {
    function Go(p: nat, x: Pc): State
      requires p < |pc|
    {
      this.(pc := pc[p := x])
    }

    function Queue(): seq<nat>
      requires popped <= |queued|
    {
      queued[popped..]
    }

    /** How many requests the drive has carried out. */
    function Moved(): nat {
      if drive.Done? && !intr.IFill? then popped + 1 else popped
    }
  }

  /** No buffer. */
  function Nil(s: State): nat {
    |s.buf|
  }

  function CmdFor(x: Buf): Cmd {
    if x.dirty then Write(x.sector, x.data) else Read(x.sector)
  }

  function DoEnter(s: State, p: nat): State
    requires p < |s.pc| && s.pc[p].Enter?
  {
    if s.lock.Free? then s.Go(p, Append(s.pc[p].b)).(lock := By(p)) else s
  }

  /** b->qnext = 0, and the last pointer of the queue set to b */
  function DoAppend(s: State, p: nat): State
    requires p < |s.pc| && s.pc[p].Append? && s.pc[p].b < |s.qnext| && s.popped <= |s.queued|
    requires forall i :: 0 <= i < |s.queued| ==> s.queued[i] < |s.qnext|
  {
    var b, q := s.pc[p].b, s.Queue();
    var links := s.qnext[b := Nil(s)];
    s.Go(p, Start(b, |s.queued|)).(
      head := if q == [] then b else s.head,
      qnext := if q == [] then links else links[q[|q| - 1] := b],
      queued := s.queued + [b])
  }

  function DoStart(s: State, p: nat): State
    requires p < |s.pc| && s.pc[p].Start? && s.pc[p].b < |s.buf|
  {
    var b := s.pc[p].b;
    var s' := s.Go(p, Check(b, s.pc[p].t));
    if s.head == b then s'.(drive := Busy(CmdFor(s.buf[b]))) else s'
  }

  function DoCheck(s: State, p: nat): State
    requires p < |s.pc| && s.pc[p].Check? && s.pc[p].b < |s.buf|
  {
    var b, t := s.pc[p].b, s.pc[p].t;
    if UpToDate(s.buf[b]) then s.Go(p, Leave(b, t)) else s.Go(p, Asleep(b, t)).(lock := Free)
  }

  function DoAwake(s: State, p: nat): State
    requires p < |s.pc| && s.pc[p].Awake?
  {
    if s.lock.Free? then s.Go(p, Check(s.pc[p].b, s.pc[p].t)).(lock := By(p)) else s
  }

  function DoLeave(s: State, p: nat): State
    requires p < |s.pc| && s.pc[p].Leave?
  {
    s.Go(p, Idle).(lock := Free)
  }

  function ProcStep(s: State, p: nat): State
    requires p < |s.pc| && Sane(s)
  {
    match s.pc[p]
    case Idle => s
    case Enter(_) => DoEnter(s, p)
    case Append(_) => DoAppend(s, p)
    case Start(_, _) => DoStart(s, p)
    case Check(_, _) => DoCheck(s, p)
    case Asleep(_, _) => s
    case Awake(_, _) => DoAwake(s, p)
    case Leave(_, _) => DoLeave(s, p)
  }

  /** The drive finishes its command. */
  function DriveStep(s: State): State
    requires Sane(s)
  {
    if s.drive.Busy? && s.drive.cmd.sector < |s.disk| && s.popped < |s.queued| then
      var c := s.drive.cmd;
      s.(drive := Done(c, s.disk[c.sector]),
         disk := if c.Write? then s.disk[c.sector := c.data] else s.disk,
         plain := MemRw(s.plain, s.queued[s.popped]),
         events := s.events + [Rw(s.queued[s.popped])])
    else s
  }

  function Woken(x: Pc, b: nat): Pc {
    if x.Asleep? && x.b == b then Awake(x.b, x.t) else x
  }

  /** ideintr; it starts when the drive has finished a command. */
  function IntrStep(s: State): State
    requires Sane(s)
  {
    match s.intr
    case None => if s.drive.Done? then s.(intr := IEnter) else s
    case IEnter => if s.lock.Free? then s.(intr := IPop, lock := ByIntr) else s
    case IPop =>
      if s.head >= |s.buf| || s.popped == |s.queued| then s.(intr := ILeave)
      else s.(intr := IFill(s.head), head := s.qnext[s.head], popped := s.popped + 1)
    case IFill(b) =>
      if b < |s.buf| && s.drive.Done? then
        s.(intr := IWake(b), drive := Off, buf := s.buf[b := Settled(s.buf[b], s.drive.got)])
      else s
    case IWake(b) => s.(intr := INext, pc := seq(|s.pc|, p requires 0 <= p < |s.pc| => Woken(s.pc[p], b)))
    case INext =>
      if s.head < |s.buf| then s.(intr := ILeave, drive := Busy(CmdFor(s.buf[s.head]))) else s.(intr := ILeave)
    case ILeave => s.(intr := None, lock := Free)
  }

  datatype Action =
    | Call(p: nat, b: nat)
    | Touch(b: nat, x: Buf)
    | Proc(p: nat)
    | Drives
    | Interrupt

  predicate InUse(s: State, b: nat) {
    exists p :: 0 <= p < |s.pc| && !s.pc[p].Idle? && s.pc[p].b == b
  }

  /** A buffer is busy for the one process that got it: no other calls iderw on it or
      touches it meanwhile. */
  predicate Enabled(s: State, a: Action) {
    match a
    case Call(p, b) => p < |s.pc| && s.pc[p].Idle? && b < |s.buf| && Ready(s.buf[b], |s.disk|) && !InUse(s, b)
    case Touch(b, _) => b < |s.buf| && !InUse(s, b)
    case Proc(p) => p < |s.pc|
    case Drives => true
    case Interrupt => true
  }

  function Do(s: State, a: Action): State
    requires Sane(s) && Enabled(s, a)
  {
    match a
    case Call(p, b) => s.Go(p, Enter(b))
    case Touch(b, x) =>
      s.(buf := s.buf[b := x], plain := MemStep(s.plain, Change(b, x)), events := s.events + [Change(b, x)])
    case Proc(p) => ProcStep(s, p)
    case Drives => DriveStep(s)
    case Interrupt => IntrStep(s)
  }

  // ----- What every step keeps -----

  /** Numbers are in range. */
  predicate Sane(s: State) {
    && |s.qnext| == |s.buf| && s.popped <= |s.queued|
    && (forall i :: 0 <= i < |s.queued| ==> s.queued[i] < |s.buf|)
    && (forall p :: 0 <= p < |s.pc| && !s.pc[p].Idle? ==> s.pc[p].b < |s.buf|)
  }

  predicate Locks(s: State) {
    && (forall p :: 0 <= p < |s.pc| ==> (s.pc[p].HasLock() <==> s.lock == By(p)))
    && (s.lock.By? ==> s.lock.p < |s.pc|)
    && (s.intr.HasLock() <==> s.lock == ByIntr)
  }

  /** No two processes have the same buffer. */
  predicate Excl(s: State) {
    forall p, q :: 0 <= p < q < |s.pc| && !s.pc[p].Idle? && !s.pc[q].Idle? ==> s.pc[p].b != s.pc[q].b
  }

  /** Some process waits for request j. */
  predicate Owned(s: State, j: nat) {
    exists p :: 0 <= p < |s.pc| && s.pc[p].Waits() && s.pc[p].t == j
  }

  predicate Tickets(s: State)
    requires Sane(s)
  {
    && (forall p :: 0 <= p < |s.pc| && s.pc[p].Waits() ==> s.pc[p].t < |s.queued| && s.queued[s.pc[p].t] == s.pc[p].b)
    && (forall j :: s.popped <= j < |s.queued| ==> Owned(s, j))
    && (s.intr.IFill? || s.intr.IWake? ==> s.popped > 0 && s.queued[s.popped - 1] == s.intr.b && Owned(s, s.popped - 1))
  }

  predicate Links(s: State)
    requires Sane(s)
  {
    && s.head == At(s, s.popped)
    && forall j :: s.popped <= j < |s.queued| ==> s.qnext[s.queued[j]] == At(s, j + 1)
  }

  /** Request j, or nothing. */
  function At(s: State, j: nat): nat {
    if j < |s.queued| then s.queued[j] else Nil(s)
  }

  /** What a process can count on: its buffer is not clean before its request is carried
      out and clean after; and it does not sleep on without an interrupt to come. */
  predicate FlagsOf(s: State, p: nat)
    requires Sane(s) && p < |s.pc|
  {
    var x := s.pc[p];
    && (x.Enter? || x.Append? ==> Ready(s.buf[x.b], |s.disk|))
    && (x.Waits() ==>
          if x.t >= s.popped || s.intr == IFill(x.b) then Ready(s.buf[x.b], |s.disk|) else UpToDate(s.buf[x.b]))
    && (x.Start? ==> x.t == |s.queued| - 1 >= s.popped)
    && (x.Asleep? ==> x.t >= s.popped || s.intr == IFill(x.b) || s.intr == IWake(x.b))
    && (x.Leave? ==> x.t < s.popped && s.intr != IFill(x.b))
  }

  predicate Flags(s: State)
    requires Sane(s)
  {
    forall p :: 0 <= p < |s.pc| ==> FlagsOf(s, p)
  }

  /** The head of the queue has not been handed to the drive yet. */
  predicate Starting(s: State) {
    s.lock.By? && s.lock.p < |s.pc| && s.pc[s.lock.p].Start? && s.pc[s.lock.p].t == s.popped
  }

  /** Only the head of the queue is active. */
  predicate Driving(s: State)
    requires Sane(s)
  {
    match s.intr
    case None => AtHead(s)
    case ILeave => AtHead(s)
    case IEnter => AtHead(s) && s.drive.Done?
    case IPop => AtHead(s) && s.drive.Done?
    case IFill(b) => b < |s.buf| && s.drive.Done? && s.drive.cmd == CmdFor(s.buf[b])
    case IWake(_) => s.drive.Off?
    case INext => s.drive.Off?
  }

  predicate AtHead(s: State)
    requires Sane(s)
  {
    if s.popped == |s.queued| || Starting(s) then s.drive.Off?
    else !s.drive.Off? && s.drive.cmd == CmdFor(s.buf[s.queued[s.popped]])
  }

  /** The drive has carried out the request for b, the handler has not told yet. */
  predicate Ahead(s: State, b: nat) {
    && s.drive.Done?
    && if s.intr.IFill? then s.intr.b == b else s.popped < |s.queued| && s.queued[s.popped] == b
  }

  predicate Follows(s: State) {
    && |s.plain.buf| == |s.buf| && s.plain.disk == s.disk
    && forall b :: 0 <= b < |s.buf| ==> s.plain.buf[b] == if Ahead(s, b) then Settled(s.buf[b], s.drive.got) else s.buf[b]
  }

  predicate History(s: State, m: Mem) {
    && s.plain == MemRun(m, s.events) && s.Moved() <= |s.queued| && Rws(s.events) == s.queued[..s.Moved()]
  }

  predicate Inv(s: State, m: Mem) {
    Sane(s) && Locks(s) && Excl(s) && Tickets(s) && Links(s) && Flags(s) && Driving(s) && Follows(s) && History(s, m)
  }

  lemma DoEnterInv(s: State, m: Mem, p: nat)
    requires Inv(s, m) && p < |s.pc| && s.pc[p].Enter?
    ensures Inv(DoEnter(s, p), m)
  {
    hide Links, Follows, History, Owned, Ready, UpToDate;
    var s' := DoEnter(s, p);
    SameOwners(s, s');
    PcOnly(s, s', m);
    forall r | 0 <= r < |s.pc| ensures FlagsOf(s', r) {
      assert FlagsOf(s, r);
    }
  }

  /** Waiting processes go on waiting for the same requests. */
  predicate Waiting(s: State, s': State) {
    |s'.pc| == |s.pc| && forall p :: 0 <= p < |s.pc| && s.pc[p].Waits() ==> s'.pc[p].Waits() && s'.pc[p].t == s.pc[p].t
  }

  /** A step that only moves processes about. */
  lemma PcOnly(s: State, s': State, m: Mem)
    requires Sane(s) && Sane(s') && s' == s.(pc := s'.pc, lock := s'.lock) && Links(s) && Follows(s) && History(s, m)
    ensures Links(s') && Follows(s') && History(s', m)
  {
    hide MemRun, Rws;
    SameLinks(s, s');
    forall b | 0 <= b < |s.buf| ensures Ahead(s', b) == Ahead(s, b) {
    }
  }

  lemma SameLinks(s: State, s': State)
    requires Sane(s) && Sane(s') && |s.buf| == |s'.buf| && s.head == s'.head && s.qnext == s'.qnext
    requires s.queued == s'.queued && s.popped == s'.popped && Links(s)
    ensures Links(s')
  {
    forall j | s'.popped <= j < |s'.queued| ensures s'.qnext[s'.queued[j]] == At(s', j + 1) {
      assert s.qnext[s.queued[j]] == At(s, j + 1);
    }
  }

  /** Only one process waits with a queued buffer. */
  lemma OwnerIs(s: State, j: nat, p: nat)
    requires Sane(s) && Excl(s) && Tickets(s) && j < |s.queued| && Owned(s, j)
    requires p < |s.pc| && !s.pc[p].Idle? && s.pc[p].b == s.queued[j]
    ensures s.pc[p].Waits() && s.pc[p].t == j
  {
    var r :| 0 <= r < |s.pc| && s.pc[r].Waits() && s.pc[r].t == j;
  }

  lemma SameOwners(s: State, s': State)
    requires Waiting(s, s')
    ensures forall j :: Owned(s, j) ==> Owned(s', j)
  {
    forall j | Owned(s, j) ensures Owned(s', j) {
      var p :| 0 <= p < |s.pc| && s.pc[p].Waits() && s.pc[p].t == j;
      assert s'.pc[p].Waits() && s'.pc[p].t == j;
    }
  }

  lemma DoStartInv(s: State, m: Mem, p: nat)
    requires Inv(s, m) && p < |s.pc| && s.pc[p].Start?
    ensures Inv(DoStart(s, p), m)
  {
    hide Links, Follows, History, Owned, Ready, UpToDate, CmdFor;
    var s' := DoStart(s, p);
    StartHead(s, p);
    StartRest(s, m, p);
    SameOwners(s, s');
    forall r | 0 <= r < |s.pc| ensures FlagsOf(s', r) {
      assert FlagsOf(s, r);
    }
  }

  /** A process that finds its request at the head finds the drive off. */
  lemma StartHead(s: State, p: nat)
    requires Sane(s) && Locks(s) && Excl(s) && Tickets(s) && Links(s) && Flags(s) && Driving(s) && p < |s.pc| && s.pc[p].Start?
    ensures s.popped < |s.queued| && (s.intr.None? || s.intr.IEnter?)
    ensures s.head == s.pc[p].b <==> s.pc[p].t == s.popped
    ensures s.head == s.pc[p].b ==> Starting(s) && s.drive.Off?
    ensures s.head == s.pc[p].b ==> s.queued[s.popped] == s.pc[p].b
    ensures s.head != s.pc[p].b ==> !Starting(s)
  {
    assert FlagsOf(s, p);
    assert Owned(s, s.popped);
    if s.head == s.pc[p].b {
      OwnerIs(s, s.popped, p);
    }
  }

  lemma StartRest(s: State, m: Mem, p: nat)
    requires Sane(s) && Links(s) && Follows(s) && History(s, m) && p < |s.pc| && s.pc[p].Start?
    requires s.head == s.pc[p].b ==> s.drive.Off?
    ensures Links(DoStart(s, p)) && Follows(DoStart(s, p)) && History(DoStart(s, p), m)
  {
    hide MemRun, Rws, CmdFor;
    var s' := DoStart(s, p);
    SameLinks(s, s');
    forall b | 0 <= b < |s.buf| ensures Ahead(s', b) == Ahead(s, b) {
    }
  }

  lemma DoCheckInv(s: State, m: Mem, p: nat)
    requires Inv(s, m) && p < |s.pc| && s.pc[p].Check?
    ensures Inv(DoCheck(s, p), m)
  {
    hide Links, Follows, History, Owned;
    var s' := DoCheck(s, p);
    SameOwners(s, s');
    PcOnly(s, s', m);
    forall r | 0 <= r < |s.pc| ensures FlagsOf(s', r) {
      assert FlagsOf(s, r);
    }
  }

  lemma DoAwakeInv(s: State, m: Mem, p: nat)
    requires Inv(s, m) && p < |s.pc| && s.pc[p].Awake?
    ensures Inv(DoAwake(s, p), m)
  {
    hide Links, Follows, History, Owned, Ready, UpToDate;
    var s' := DoAwake(s, p);
    SameOwners(s, s');
    PcOnly(s, s', m);
    forall r | 0 <= r < |s.pc| ensures FlagsOf(s', r) {
      assert FlagsOf(s, r);
    }
  }

  lemma DoLeaveInv(s: State, m: Mem, p: nat)
    requires Inv(s, m) && p < |s.pc| && s.pc[p].Leave?
    ensures Inv(DoLeave(s, p), m)
  {
    hide Links, Follows, History, Owned, Ready, UpToDate;
    var s' := DoLeave(s, p);
    LeaveOwners(s, p);
    PcOnly(s, s', m);
    forall r | 0 <= r < |s.pc| ensures FlagsOf(s', r) {
      assert FlagsOf(s, r);
    }
  }

  lemma LeaveOwners(s: State, p: nat)
    requires Sane(s) && Tickets(s) && Flags(s) && Locks(s) && p < |s.pc| && s.pc[p].Leave?
    ensures forall j :: s.popped <= j < |s.queued| ==> Owned(DoLeave(s, p), j)
    ensures !s.intr.IFill? && !s.intr.IWake?
  {
    var s' := DoLeave(s, p);
    assert FlagsOf(s, p);
    forall j | s.popped <= j < |s.queued| ensures Owned(s', j) {
      assert Owned(s, j);
      var r :| 0 <= r < |s.pc| && s.pc[r].Waits() && s.pc[r].t == j;
      assert s'.pc[r].Waits() && s'.pc[r].t == j;
    }
  }

  lemma CallInv(s: State, m: Mem, p: nat, b: nat)
    requires Inv(s, m) && Enabled(s, Call(p, b))
    ensures Inv(s.Go(p, Enter(b)), m)
  {
    hide Links, Follows, History, Owned, Ready, UpToDate;
    var s' := s.Go(p, Enter(b));
    SameOwners(s, s');
    PcOnly(s, s', m);
    forall r | 0 <= r < |s.pc| ensures FlagsOf(s', r) {
      assert FlagsOf(s, r);
    }
  }

  /** Buffers nobody is in iderw with are neither queued nor with the handler. */
  lemma Unqueued(s: State, b: nat)
    requires Sane(s) && Tickets(s) && !InUse(s, b)
    ensures forall j :: s.popped <= j < |s.queued| ==> s.queued[j] != b
    ensures s.intr.IFill? || s.intr.IWake? ==> s.intr.b != b
  {
    forall j | s.popped <= j < |s.queued| ensures s.queued[j] != b {
      assert Owned(s, j);
      var p :| 0 <= p < |s.pc| && s.pc[p].Waits() && s.pc[p].t == j;
    }
    if s.intr.IFill? || s.intr.IWake? {
      var p :| 0 <= p < |s.pc| && s.pc[p].Waits() && s.pc[p].t == s.popped - 1;
    }
  }

  lemma TouchHistory(s: State, m: Mem, b: nat, x: Buf)
    requires Sane(s) && History(s, m) && Enabled(s, Touch(b, x))
    ensures History(Do(s, Touch(b, x)), m)
  {
    EventAdded(m, s.events, Change(b, x));
  }

  lemma TouchFollows(s: State, b: nat, x: Buf)
    requires Sane(s) && Tickets(s) && Follows(s) && Enabled(s, Touch(b, x))
    ensures Follows(Do(s, Touch(b, x)))
  {
    hide Tickets;
    Unqueued(s, b);
  }

  lemma TouchInv(s: State, m: Mem, b: nat, x: Buf)
    requires Inv(s, m) && Enabled(s, Touch(b, x))
    ensures Inv(Do(s, Touch(b, x)), m)
  {
    hide History, Follows, Links, Owned, Ready, UpToDate, MemStep;
    TouchHistory(s, m, b, x);
    TouchFollows(s, b, x);
    var s' := Do(s, Touch(b, x));
    SameOwners(s, s');
    SameLinks(s, s');
    Unqueued(s, b);
    forall r | 0 <= r < |s.pc| ensures FlagsOf(s', r) {
      assert FlagsOf(s, r);
    }
  }

  lemma EventAdded(m: Mem, es: seq<Event>, e: Event)
    ensures MemRun(m, es + [e]) == MemStep(MemRun(m, es), e)
    ensures Rws(es + [e]) == Rws(es) + if e.Rw? then [e.b] else []
  {
    assert (es + [e])[..|es|] == es;
  }

  /** The drive is busy with the request at the head of the queue. */
  lemma DriveBusy(s: State)
    requires Sane(s) && Tickets(s) && Flags(s) && Driving(s) && s.drive.Busy?
    ensures s.popped < |s.queued| && (s.intr.None? || s.intr.ILeave?) && !Starting(s)
    ensures var x := s.buf[s.queued[s.popped]]; s.drive.cmd == CmdFor(x) && Ready(x, |s.disk|)
  {
    assert Owned(s, s.popped);
    var p :| 0 <= p < |s.pc| && s.pc[p].Waits() && s.pc[p].t == s.popped;
    assert FlagsOf(s, p);
  }

  lemma DriveHistory(s: State, m: Mem)
    requires Sane(s) && History(s, m) && s.drive.Busy? && s.popped < |s.queued| && !s.intr.IFill?
    ensures History(DriveStep(s), m)
  {
    var b := s.queued[s.popped];
    EventAdded(m, s.events, Rw(b));
    assert s.queued[..s.popped + 1] == s.queued[..s.popped] + [b];
  }

  /** The drive does to the sector, and hands over for the buffer, what memide does. */
  lemma DriveFollows(s: State)
    requires Sane(s) && Follows(s) && s.drive.Busy? && s.popped < |s.queued| && !s.intr.IFill?
    requires var x := s.buf[s.queued[s.popped]]; s.drive.cmd == CmdFor(x) && Ready(x, |s.disk|)
    ensures Follows(DriveStep(s))
  {
    var b := s.queued[s.popped];
    assert s.plain.buf[b] == s.buf[b];
  }

  lemma DriveInv(s: State, m: Mem)
    requires Inv(s, m)
    ensures Inv(DriveStep(s), m)
  {
    hide History, Follows, Links, Owned, Ready, UpToDate, MemRw, CmdFor;
    if s.drive.Busy? {
      DriveBusy(s);
      DriveHistory(s, m);
      DriveFollows(s);
      var s' := DriveStep(s);
      SameOwners(s, s');
      SameLinks(s, s');
      forall r | 0 <= r < |s.pc| ensures FlagsOf(s', r) {
        assert FlagsOf(s, r);
      }
    }
  }

  // ----- Queueing a request -----

  /** A process that has not queued its buffer yet has it to itself. */
  lemma NotQueued(s: State, p: nat)
    requires Sane(s) && Excl(s) && Tickets(s) && p < |s.pc| && !s.pc[p].Idle? && !s.pc[p].Waits()
    ensures forall j :: s.popped <= j < |s.queued| ==> s.queued[j] != s.pc[p].b
    ensures s.intr.IFill? || s.intr.IWake? ==> s.intr.b != s.pc[p].b
  {
    forall j | s.popped <= j < |s.queued| ensures s.queued[j] != s.pc[p].b {
      if s.queued[j] == s.pc[p].b {
        OwnerIs(s, j, p);
      }
    }
    if (s.intr.IFill? || s.intr.IWake?) && s.intr.b == s.pc[p].b {
      OwnerIs(s, s.popped - 1, p);
    }
  }

  /** No buffer is queued twice. */
  lemma QueueDistinct(s: State, i: nat, j: nat)
    requires Sane(s) && Excl(s) && Tickets(s) && s.popped <= i < j < |s.queued|
    ensures s.queued[i] != s.queued[j]
  {
    assert Owned(s, i) && Owned(s, j);
    var p :| 0 <= p < |s.pc| && s.pc[p].Waits() && s.pc[p].t == i;
    if s.queued[i] == s.queued[j] {
      OwnerIs(s, j, p);
    }
  }

  lemma AppendLinks(s: State, p: nat)
    requires Sane(s) && Excl(s) && Tickets(s) && Links(s) && p < |s.pc| && s.pc[p].Append?
    ensures Sane(DoAppend(s, p)) && Links(DoAppend(s, p))
  {
    hide Tickets, Excl;
    var s', b, n := DoAppend(s, p), s.pc[p].b, |s.queued|;
    NotQueued(s, p);
    forall j | s.popped <= j < |s'.queued| ensures s'.qnext[s'.queued[j]] == At(s', j + 1) {
      if j < n - 1 {
        QueueDistinct(s, j, n - 1);
        assert s.qnext[s.queued[j]] == At(s, j + 1);
      }
    }
  }

  lemma AppendOwners(s: State, p: nat)
    requires Sane(s) && Excl(s) && Tickets(s) && p < |s.pc| && s.pc[p].Append?
    ensures Sane(DoAppend(s, p)) && Excl(DoAppend(s, p)) && Tickets(DoAppend(s, p))
  {
    var s' := DoAppend(s, p);
    SameOwners(s, s');
    assert s'.pc[p].Waits() && s'.pc[p].t == |s.queued|;
    forall j | s'.popped <= j < |s'.queued| ensures Owned(s', j) {
      assert j < |s.queued| ==> Owned(s, j);
    }
  }

  lemma AppendFollows(s: State, m: Mem, p: nat)
    requires Sane(s) && Driving(s) && Follows(s) && History(s, m) && p < |s.pc| && s.pc[p].Append?
    requires s.popped == |s.queued| ==> s.drive.Off?
    ensures Follows(DoAppend(s, p)) && History(DoAppend(s, p), m)
  {
    hide MemRun, Rws, Driving;
    var s' := DoAppend(s, p);
    forall b | 0 <= b < |s.buf| ensures Ahead(s', b) == Ahead(s, b) {
    }
    assert s'.queued[..s.Moved()] == s.queued[..s.Moved()];
  }

  lemma DoAppendInv(s: State, m: Mem, p: nat)
    requires Inv(s, m) && p < |s.pc| && s.pc[p].Append?
    ensures Inv(DoAppend(s, p), m)
  {
    hide Links, Follows, History, Owned, Tickets, CmdFor;
    var s' := DoAppend(s, p);
    assert FlagsOf(s, p);
    AppendLinks(s, p);
    AppendOwners(s, p);
    AppendFollows(s, m, p);
    forall r | 0 <= r < |s.pc| ensures FlagsOf(s', r) {
      assert FlagsOf(s, r);
    }
  }

  // ----- The interrupt handler -----

  /** A step that only moves the handler. */
  lemma IntrOnly(s: State, s': State, m: Mem)
    requires Sane(s) && Sane(s') && s' == s.(intr := s'.intr, lock := s'.lock) && Links(s) && Follows(s) && History(s, m)
    requires !s.intr.IFill? && !s'.intr.IFill? && Tickets(s) && !s'.intr.IWake?
    ensures Links(s') && Follows(s') && History(s', m) && Tickets(s')
  {
    hide MemRun, Rws;
    SameLinks(s, s');
    SameOwners(s, s');
    forall b | 0 <= b < |s.buf| ensures Ahead(s', b) == Ahead(s, b) {
    }
  }

  lemma IntrEnterInv(s: State, m: Mem)
    requires Inv(s, m) && (s.intr.None? || s.intr.IEnter? || s.intr.ILeave?)
    ensures Inv(IntrStep(s), m)
  {
    hide Links, Follows, History, Tickets, Ready, UpToDate, CmdFor;
    var s' := IntrStep(s);
    IntrOnly(s, s', m);
    forall r | 0 <= r < |s.pc| ensures FlagsOf(s', r) {
      assert FlagsOf(s, r);
    }
  }

  lemma PopHead(s: State)
    requires Sane(s) && Links(s) && Driving(s) && s.intr.IPop?
    ensures s.popped < |s.queued| && s.head == s.queued[s.popped] < |s.buf| && s.drive.Done?
    ensures s.drive.cmd == CmdFor(s.buf[s.head]) && s.qnext[s.head] == At(s, s.popped + 1)
  {
  }

  lemma PopRest(s: State, m: Mem)
    requires Sane(s) && Links(s) && Tickets(s) && Driving(s) && Follows(s) && History(s, m) && s.intr.IPop?
    ensures Sane(IntrStep(s)) && Links(IntrStep(s)) && Tickets(IntrStep(s)) && Follows(IntrStep(s)) && History(IntrStep(s), m)
  {
    hide MemRun, Rws, Driving, CmdFor;
    PopHead(s);
    var s' := IntrStep(s);
    SameOwners(s, s');
    assert Owned(s, s.popped);
    forall j | s'.popped <= j < |s'.queued| ensures s'.qnext[s'.queued[j]] == At(s', j + 1) {
      assert s.qnext[s.queued[j]] == At(s, j + 1);
    }
    forall b | 0 <= b < |s.buf| ensures Ahead(s', b) == Ahead(s, b) {
    }
  }

  lemma IntrPopInv(s: State, m: Mem)
    requires Inv(s, m) && s.intr.IPop?
    ensures Inv(IntrStep(s), m)
  {
    hide Links, Follows, History, Owned, Tickets, CmdFor, Ready, UpToDate;
    PopHead(s);
    PopRest(s, m);
    var s' := IntrStep(s);
    forall r | 0 <= r < |s.pc| ensures FlagsOf(s', r) {
      PopFlags(s, r);
    }
  }

  lemma PopFlags(s: State, r: nat)
    requires Sane(s) && Locks(s) && Excl(s) && Tickets(s) && Flags(s) && Links(s) && Driving(s) && s.intr.IPop? && r < |s.pc|
    ensures FlagsOf(IntrStep(s), r)
  {
    hide Links, Driving, Ready, UpToDate;
    PopHead(s);
    assert FlagsOf(s, r) && Owned(s, s.popped);
    if !s.pc[r].Idle? && s.pc[r].b == s.head {
      OwnerIs(s, s.popped, r);
    }
  }

  lemma FillFlags(s: State, r: nat)
    requires Sane(s) && Excl(s) && Tickets(s) && Flags(s) && Driving(s) && s.intr.IFill? && r < |s.pc|
    ensures FlagsOf(IntrStep(s), r)
  {
    assert FlagsOf(s, r);
    if !s.pc[r].Idle? && s.pc[r].b == s.intr.b {
      OwnerIs(s, s.popped - 1, r);
    }
  }

  lemma IntrFillInv(s: State, m: Mem)
    requires Inv(s, m) && s.intr.IFill?
    ensures Inv(IntrStep(s), m)
  {
    hide MemRun, Rws, Owned, Ready, UpToDate, CmdFor;
    var s' := IntrStep(s);
    SameOwners(s, s');
    SameLinks(s, s');
    forall r | 0 <= r < |s.pc| ensures FlagsOf(s', r) {
      FillFlags(s, r);
    }
    assert Ahead(s, s.intr.b);
    forall b | 0 <= b < |s.buf| && b != s.intr.b ensures !Ahead(s, b) {
    }
  }

  lemma WakeRest(s: State, m: Mem)
    requires Sane(s) && Links(s) && Tickets(s) && Follows(s) && History(s, m) && s.drive.Off? && (s.intr.IWake? || s.intr.INext?)
    ensures Sane(IntrStep(s)) && Links(IntrStep(s)) && Tickets(IntrStep(s)) && Follows(IntrStep(s)) && History(IntrStep(s), m)
  {
    hide MemRun, Rws, CmdFor;
    var s' := IntrStep(s);
    SameOwners(s, s');
    SameLinks(s, s');
  }

  lemma IntrWakeInv(s: State, m: Mem)
    requires Inv(s, m) && s.intr.IWake?
    ensures Inv(IntrStep(s), m)
  {
    hide Links, Follows, History, Tickets, Ready, UpToDate, CmdFor;
    var s' := IntrStep(s);
    WakeRest(s, m);
    forall r | 0 <= r < |s.pc| ensures FlagsOf(s', r) {
      assert FlagsOf(s, r);
    }
  }

  lemma HeadIs(s: State)
    requires Sane(s) && Links(s)
    ensures s.head == if s.popped < |s.queued| then s.queued[s.popped] else |s.buf|
  {
  }

  lemma IntrNextInv(s: State, m: Mem)
    requires Inv(s, m) && s.intr.INext?
    ensures Inv(IntrStep(s), m)
  {
    hide Links, Follows, History, Tickets, Ready, UpToDate, CmdFor;
    var s' := IntrStep(s);
    WakeRest(s, m);
    HeadIs(s);
    forall r | 0 <= r < |s.pc| ensures FlagsOf(s', r) {
      assert FlagsOf(s, r);
    }
  }

  // ----- Every run -----

  lemma DoInv(s: State, m: Mem, a: Action)
    requires Inv(s, m) && Enabled(s, a)
    ensures Inv(Do(s, a), m)
  {
    hide Inv, DoEnter, DoAppend, DoStart, DoCheck, DoAwake, DoLeave, DriveStep, IntrStep;
    assert Sane(s) by { InvSane(s, m); }
    match a
    case Call(p, b) => CallInv(s, m, p, b);
    case Touch(b, x) => TouchInv(s, m, b, x);
    case Proc(p) =>
      match s.pc[p] {
        case Idle =>
        case Enter(_) => DoEnterInv(s, m, p);
        case Append(_) => DoAppendInv(s, m, p);
        case Start(_, _) => DoStartInv(s, m, p);
        case Check(_, _) => DoCheckInv(s, m, p);
        case Asleep(_, _) =>
        case Awake(_, _) => DoAwakeInv(s, m, p);
        case Leave(_, _) => DoLeaveInv(s, m, p);
      }
    case Drives => DriveInv(s, m);
    case Interrupt =>
      match s.intr {
        case None => IntrEnterInv(s, m);
        case IEnter => IntrEnterInv(s, m);
        case IPop => IntrPopInv(s, m);
        case IFill(_) => IntrFillInv(s, m);
        case IWake(_) => IntrWakeInv(s, m);
        case INext => IntrNextInv(s, m);
        case ILeave => IntrEnterInv(s, m);
      }
  }

  lemma InvSane(s: State, m: Mem)
    requires Inv(s, m)
    ensures Sane(s)
  {
  }

  /** The system at boot: n processes, no requests. */
  function Boot(m: Mem, n: nat): State {
    State(m.buf, m.disk, |m.buf|, seq(|m.buf|, _ => |m.buf|), Free, Off, seq(n, _ => Idle), None, [], 0, m, [])
  }

  lemma BootInv(m: Mem, n: nat)
    ensures Inv(Boot(m, n), m)
  {
  }

  /** A run of enabled actions; by DoInv every state on it is sane. */
  predicate Legal(s: State, acts: seq<Action>)
    decreases |acts|
  {
    acts == [] || ((Sane(s) ==> Enabled(s, acts[0])) && Legal(Step(s, acts[0]), acts[1..]))
  }

  /** Steps are defined in sane states; RunInv shows that a run comes to no other. */
  function Step(s: State, a: Action): State
    requires Sane(s) ==> Enabled(s, a)
  {
    if Sane(s) then Do(s, a) else s
  }

  function Run(s: State, acts: seq<Action>): State
    requires Legal(s, acts)
    decreases |acts|
  {
    if acts == [] then s else Run(Step(s, acts[0]), acts[1..])
  }

  /** From a state of the invariant every step that is enabled keeps it. */
  lemma {:induction false} RunInv(s: State, m: Mem, acts: seq<Action>)
    requires Inv(s, m) && Legal(s, acts)
    ensures Inv(Run(s, acts), m)
    decreases |acts|
  {
    hide Inv, Do;
    InvSane(s, m);
    if acts != [] {
      DoInv(s, m, acts[0]);
      RunInv(Step(s, acts[0]), m, acts[1..]);
    }
  }

  /** A process about to return from iderw has had its request carried out and its buffer
      is as memide leaves it; a sleeping one's request is queued or it is being woken. */
  predicate Returning(s: State, m: Mem, p: nat)
    requires Sane(s) && p < |s.pc|
  {
    var x, spec := s.pc[p], MemRun(m, s.events);
    && (x.Leave? ==>
          && x.t < s.Moved() <= |s.queued| && s.queued[x.t] == x.b
          && |spec.buf| == |s.buf| && s.buf[x.b] == spec.buf[x.b] && UpToDate(s.buf[x.b]))
    && (x.Asleep? ==> x.b in s.queued[s.popped..] || s.intr == IFill(x.b) || s.intr == IWake(x.b))
  }

  /** After every run from boot: the drive has carried out the requests in the order they
      were queued, and the disk is what memide's iderw leaves when called in that order;
      a process about to return from iderw has had its request carried out, and its buffer
      is what memide leaves; the queue holds no buffer twice, and the drive is never busy
      but with its head; a sleeping process's request is still queued, or it is about to
      be woken. */
  lemma IdeRefines(m: Mem, n: nat, acts: seq<Action>)
    requires Legal(Boot(m, n), acts)
    ensures var s := Run(Boot(m, n), acts);
            var spec := MemRun(m, s.events);
            && Sane(s) && s.Moved() <= |s.queued| && Rws(s.events) == s.queued[..s.Moved()] && s.disk == spec.disk
            && |spec.buf| == |s.buf|
            && (forall p :: 0 <= p < |s.pc| ==> Returning(s, m, p))
            && (forall i, j :: s.popped <= i < j < |s.queued| ==> s.queued[i] != s.queued[j])
            && (s.drive.Busy? ==> s.popped < |s.queued| && s.drive.cmd == CmdFor(s.buf[s.queued[s.popped]]))
  {
    hide Run, Inv, MemRun, Rws, UpToDate, CmdFor, Boot;
    BootInv(m, n);
    InvSane(Boot(m, n), m);
    var s := Run(Boot(m, n), acts);
    RunInv(Boot(m, n), m, acts);
    InvSpec(s, m);
    InvQueue(s, m);
    forall p | 0 <= p < |s.pc| ensures Returning(s, m, p) {
      InvReturn(s, m, p);
    }
  }

  lemma InvSpec(s: State, m: Mem)
    requires Inv(s, m)
    ensures var spec := MemRun(m, s.events);
            && Sane(s) && s.Moved() <= |s.queued| && Rws(s.events) == s.queued[..s.Moved()] && s.disk == spec.disk
            && |spec.buf| == |s.buf|
  {
    hide MemRun, Rws;
  }

  lemma InvQueue(s: State, m: Mem)
    requires Inv(s, m)
    ensures forall i, j :: s.popped <= i < j < |s.queued| ==> s.queued[i] != s.queued[j]
    ensures s.drive.Busy? ==> s.popped < |s.queued| && s.drive.cmd == CmdFor(s.buf[s.queued[s.popped]])
  {
    hide Follows, History, Links;
    forall i, j | s.popped <= i < j < |s.queued| ensures s.queued[i] != s.queued[j] {
      QueueDistinct(s, i, j);
    }
    if s.drive.Busy? {
      DriveBusy(s);
    }
  }

  lemma InvReturn(s: State, m: Mem, p: nat)
    requires Inv(s, m) && p < |s.pc|
    ensures Returning(s, m, p)
  {
    hide MemRun, Rws, Links, Driving;
    assert FlagsOf(s, p);
    var x := s.pc[p];
    if x.Waits() && x.t >= s.popped {
      assert s.queued[s.popped..][x.t - s.popped] == x.b;
    }
    if x.Leave? {
      NotAhead(s, p);
    }
  }

  /** The request of a returning process is behind the drive and the handler. */
  lemma NotAhead(s: State, p: nat)
    requires Sane(s) && Excl(s) && Tickets(s) && Flags(s) && p < |s.pc| && s.pc[p].Leave?
    ensures !Ahead(s, s.pc[p].b)
  {
    assert FlagsOf(s, p);
    if s.popped < |s.queued| && s.queued[s.popped] == s.pc[p].b {
      assert Owned(s, s.popped);
      OwnerIs(s, s.popped, p);
    }
  }

  // ----- The queue as it is linked -----

  /** The buffers reached from head through qnext; nil ends the list. */
  ghost predicate Linked(head: nat, qnext: seq<nat>, q: seq<nat>) {
    && (forall i :: 0 <= i < |q| ==> q[i] < |qnext|) && (forall i, j :: 0 <= i < j < |q| ==> q[i] != q[j])
    && head == Nth(q, 0, |qnext|)
    && forall i :: 0 <= i < |q| ==> qnext[q[i]] == Nth(q, i + 1, |qnext|)
  }

  function Nth(q: seq<nat>, i: nat, nil: nat): nat {
    if i < |q| then q[i] else nil
  }

  lemma PopLinked(head: nat, qnext: seq<nat>, q: seq<nat>)
    requires Linked(head, qnext, q) && q != []
    ensures head == q[0] < |qnext| && Linked(qnext[head], qnext, q[1..])
  {
    var r := q[1..];
    assert qnext[q[0]] == Nth(q, 1, |qnext|);
    forall i | 0 <= i < |r| ensures qnext[r[i]] == Nth(r, i + 1, |qnext|) {
      assert r[i] == q[i + 1];
      assert qnext[q[i + 1]] == Nth(q, i + 2, |qnext|);
    }
  }

  class RequestQueue {
    var head: nat
    var qnext: seq<nat>
    ghost var q: seq<nat>

    constructor (n: nat)
      ensures Linked(head, qnext, q) && q == [] && |qnext| == n
    {
      head, qnext, q := n, seq(n, _ => n), [];
    }

    /** iderw's loop to the last pointer of the queue, and b in its place. */
    method Append(b: nat)
      requires Linked(head, qnext, q) && b < |qnext| && b !in q
      modifies this
      ensures Linked(head, qnext, q) && q == old(q) + [b] && |qnext| == old(|qnext|)
    {
      var nil := |qnext|;
      qnext := qnext[b := nil];
      var at, cur := nil, head;
      ghost var i := 0;
      while cur != nil
        invariant 0 <= i <= |q| && head == old(head) && q == old(q) && qnext == old(qnext)[b := nil]
        invariant cur == Nth(q, i, nil)
        invariant at == if i > 0 then q[i - 1] else nil
        decreases |q| - i
      {
        assert q[i] in q && old(qnext)[q[i]] == Nth(q, i + 1, nil);
        at, cur := cur, qnext[cur];
        i := i + 1;
      }
      if at == nil {
        head := b;
      } else {
        qnext := qnext[at := b];
      }
      q := q + [b];
    }

    /** The handler takes the head: the request queued before all others. */
    method Pop() returns (b: nat)
      requires Linked(head, qnext, q) && q != []
      modifies this`head, this`q
      ensures Linked(head, qnext, q) && b == old(q)[0] && q == old(q)[1..]
    {
      PopLinked(head, qnext, q);
      b := head;
      head := qnext[b];
      q := q[1..];
    }
  }
}
