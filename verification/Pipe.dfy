/** pipe.c as a state machine: any number of processes read, write and close one pipe,
    interleaved at every point where locks allow it. sleep is taken apart as proc.c
    does it: ptable.lock is acquired, the pipe lock released, and only then is the
    process marked asleep. The main theorem is PipeSafe, over every run. */
module Pipe {
  import opened Blocks

  const PIPESIZE: nat := 512
  const WRAP: nat := 0x1_0000_0000

  datatype Lock = Free | By(p: nat)

  /** What a call came back with: the number pipewrite returns, the bytes piperead copied
      to its caller, the end of pipeclose; or there was no call yet. */
  datatype Ret = NoCall | Wrote(n: int) | Got(bytes: seq<Byte>) | Closed

  /** Where a process is in pipewrite (W), piperead (R) or pipeclose (C). */
  datatype Pc =
    | Idle(ret: Ret)
    | WEnter(addr: seq<Byte>)
    | WLoop(addr: seq<Byte>, i: nat)
    | WWake(addr: seq<Byte>, i: nat)
    | WSleep(addr: seq<Byte>, i: nat)
    | WDrop(addr: seq<Byte>, i: nat)
    | WMark(addr: seq<Byte>, i: nat)
    | WAsleep(addr: seq<Byte>, i: nat)
    | WAwake(addr: seq<Byte>, i: nat)
    | WLast(n: nat)
    | WLeave(n: nat)
    | REnter(n: nat)
    | RLoop(n: nat)
    | RSleep(n: nat)
    | RDrop(n: nat)
    | RMark(n: nat)
    | RAsleep(n: nat)
    | RAwake(n: nat)
    | RCopy(n: nat, got: seq<Byte>)
    | RWake(got: seq<Byte>)
    | RLeave(got: seq<Byte>)
    | CEnter(writable: bool)
    | CWake(writable: bool)
    | CLeave(writable: bool)
  {
    predicate Writing() {
      WEnter? || WLoop? || WWake? || WSleep? || WDrop? || WMark? || WAsleep? || WAwake? || WLast? || WLeave?
    }

    predicate Reading() {
      REnter? || RLoop? || RSleep? || RDrop? || RMark? || RAsleep? || RAwake? || RCopy? || RWake? || RLeave?
    }

    predicate Closing() {
      CEnter? || CWake? || CLeave?
    }

    predicate HasPipe() {
      || WLoop? || WWake? || WSleep? || WDrop? || WLast? || WLeave?
      || RLoop? || RSleep? || RDrop? || RCopy? || RWake? || RLeave? || CWake? || CLeave?
    }

    predicate HasPtable() {
      WDrop? || WMark? || RDrop? || RMark?
    }

    /** Asleep, or past the point where the pipe lock is given up to sleep. */
    predicate WriterWaits() {
      WMark? || WAsleep?
    }

    predicate ReaderWaits() {
      RMark? || RAsleep?
    }

    /** Holds the pipe lock and calls wakeup(&nwrite) before giving it up. */
    predicate WillWakeWriters() {
      RCopy? || RWake? || (CWake? && !writable)
    }

    predicate WillWakeReaders() {
      WLoop? || WWake? || WLast? || (CWake? && writable)
    }
  }

  /** The pipe, the two locks, the processes, and the bytes ever put in and taken out. */
  datatype State = State(
    data: seq<Byte>, nread: nat, nwrite: nat, readopen: bool, writeopen: bool,
    lock: Lock, ptable: Lock, pc: seq<Pc>,
    inserted: seq<Byte>, removed: seq<Byte>)
  {
    predicate Full() {
      nwrite == (nread + PIPESIZE) % WRAP
    }

    predicate Empty() {
      nread == nwrite
    }

    function Go(p: nat, x: Pc): State
      requires p < |pc|
    {
      this.(pc := pc[p := x])
    }
  }

  function Woken(x: Pc, writers: bool): Pc {
    if writers && x.WAsleep? then WAwake(x.addr, x.i)
    else if !writers && x.RAsleep? then RAwake(x.n)
    else x
  }

  /** wakeup(&p->nwrite) or wakeup(&p->nread). */
  function Wakeup(s: State, writers: bool): (r: State)
    ensures r == s.(pc := r.pc) && |r.pc| == |s.pc|
    ensures forall p :: 0 <= p < |s.pc| ==> r.pc[p] == Woken(s.pc[p], writers)
  {
    s.(pc := seq(|s.pc|, p requires 0 <= p < |s.pc| => Woken(s.pc[p], writers)))
  }

  /** data[nwrite++ % PIPESIZE] = b */
  function Put(s: State, b: Byte): State
    requires |s.data| == PIPESIZE
  {
    s.(data := s.data[s.nwrite % PIPESIZE := b], nwrite := (s.nwrite + 1) % WRAP, inserted := s.inserted + [b])
  }

  function Peek(s: State): Byte
    requires |s.data| == PIPESIZE
  {
    s.data[s.nread % PIPESIZE]
  }

  /** data[nread++ % PIPESIZE] */
  function Get(s: State): State
    requires |s.data| == PIPESIZE
  {
    s.(nread := (s.nread + 1) % WRAP, removed := s.removed + [Peek(s)])
  }

  // ----- One step of process p; a process that cannot have its lock stays put -----

  function Acquire(s: State, p: nat, x: Pc): State
    requires p < |s.pc|
  {
    if s.lock.Free? then s.Go(p, x).(lock := By(p)) else s
  }

  function Release(s: State, p: nat, x: Pc): State
    requires p < |s.pc|
  {
    s.Go(p, x).(lock := Free)
  }

  function WriterStep(s: State, p: nat): State
    requires p < |s.pc| && |s.data| == PIPESIZE && s.pc[p].Writing()
  {
    match s.pc[p]
    case WEnter(addr) => Acquire(s, p, WLoop(addr, 0))
    case WLoop(addr, i) =>
      if i >= |addr| then s.Go(p, WLast(|addr|))
      else if !s.Full() then Put(s, addr[i]).Go(p, WLoop(addr, i + 1))
      else if !s.readopen then Release(s, p, Idle(Wrote(-1)))
      else s.Go(p, WWake(addr, i))
    case WWake(addr, i) => if s.ptable.Free? then Wakeup(s, false).Go(p, WSleep(addr, i)) else s
    case WSleep(addr, i) => if s.ptable.Free? then s.Go(p, WDrop(addr, i)).(ptable := By(p)) else s
    case WDrop(addr, i) => Release(s, p, WMark(addr, i))
    case WMark(addr, i) => s.Go(p, WAsleep(addr, i)).(ptable := Free)
    case WAsleep(_, _) => s
    case WAwake(addr, i) => Acquire(s, p, WLoop(addr, i))
    case WLast(n) => if s.ptable.Free? then Wakeup(s, false).Go(p, WLeave(n)) else s
    case WLeave(n) => Release(s, p, Idle(Wrote(n)))
  }

  function ReaderStep(s: State, p: nat): State
    requires p < |s.pc| && |s.data| == PIPESIZE && s.pc[p].Reading()
  {
    match s.pc[p]
    case REnter(n) => Acquire(s, p, RLoop(n))
    case RLoop(n) => if s.Empty() && s.writeopen then s.Go(p, RSleep(n)) else s.Go(p, RCopy(n, []))
    case RSleep(n) => if s.ptable.Free? then s.Go(p, RDrop(n)).(ptable := By(p)) else s
    case RDrop(n) => Release(s, p, RMark(n))
    case RMark(n) => s.Go(p, RAsleep(n)).(ptable := Free)
    case RAsleep(_) => s
    case RAwake(n) => Acquire(s, p, RLoop(n))
    case RCopy(n, got) =>
      if |got| >= n || s.Empty() then s.Go(p, RWake(got)) else Get(s).Go(p, RCopy(n, got + [Peek(s)]))
    case RWake(got) => if s.ptable.Free? then Wakeup(s, true).Go(p, RLeave(got)) else s
    case RLeave(got) => Release(s, p, Idle(Got(got)))
  }

  function CloserStep(s: State, p: nat): State
    requires p < |s.pc| && s.pc[p].Closing()
  {
    match s.pc[p]
    case CEnter(w) =>
      if !s.lock.Free? then s
      else
        var t := Acquire(s, p, CWake(w));
        if w then t.(writeopen := false) else t.(readopen := false)
    case CWake(w) => if s.ptable.Free? then Wakeup(s, !w).Go(p, CLeave(w)) else s
    case CLeave(_) => Release(s, p, Idle(Closed))
  }

  /** The calls a process may make. file.c counts the descriptors of each end: an end is
      closed once, when nobody is using it, and not used afterwards. */
  datatype Call = Write(addr: seq<Byte>) | Read(n: nat) | Close(writable: bool)

  predicate EndClosing(s: State, writable: bool) {
    exists q :: 0 <= q < |s.pc| && s.pc[q].Closing() && s.pc[q].writable == writable
  }

  predicate Allowed(s: State, call: Call) {
    match call
    case Write(_) => s.writeopen && !EndClosing(s, true)
    case Read(_) => s.readopen && !EndClosing(s, false)
    case Close(w) =>
      && (if w then s.writeopen else s.readopen) && !EndClosing(s, w)
      && forall q :: 0 <= q < |s.pc| ==> !(if w then s.pc[q].Writing() else s.pc[q].Reading())
  }

  function Entry(call: Call): Pc {
    match call
    case Write(addr) => WEnter(addr)
    case Read(n) => REnter(n)
    case Close(w) => CEnter(w)
  }

  function Step(s: State, p: nat): State
    requires p < |s.pc| && |s.data| == PIPESIZE && !s.pc[p].Idle?
  {
    if s.pc[p].Writing() then WriterStep(s, p)
    else if s.pc[p].Reading() then ReaderStep(s, p)
    else CloserStep(s, p)
  }

  /** pipealloc's pipe, with every process outside it. */
  predicate Init(s: State) {
    && |s.data| == PIPESIZE && s.nread == 0 && s.nwrite == 0 && s.readopen && s.writeopen
    && s.lock == Free && s.ptable == Free && s.inserted == [] && s.removed == []
    && forall p :: 0 <= p < |s.pc| ==> s.pc[p].Idle?
  }

  // ----- The invariant -----

  /** The ring buffer: the counters are the true counts modulo 2^32, at most PIPESIZE
      bytes are outstanding and they are in the buffer, and bytes come out in order. */
  predicate Ring(s: State) {
    && |s.data| == PIPESIZE
    && s.removed <= s.inserted && |s.inserted| <= |s.removed| + PIPESIZE
    && s.nread == |s.removed| % WRAP && s.nwrite == |s.inserted| % WRAP
    && forall i :: |s.removed| <= i < |s.inserted| ==> s.data[i % PIPESIZE] == s.inserted[i]
  }

  predicate Locks(s: State) {
    forall p :: 0 <= p < |s.pc| ==> LockAt(s.pc[p], p, s.lock, s.ptable)
  }

  predicate LockAt(x: Pc, p: nat, lock: Lock, ptable: Lock) {
    (x.HasPipe() <==> lock == By(p)) && (x.HasPtable() <==> ptable == By(p))
  }

  /** Nobody uses an end that is closed or being closed. */
  predicate Ends(s: State) {
    && (forall p :: 0 <= p < |s.pc| && s.pc[p].Writing() ==> s.writeopen && !EndClosing(s, true))
    && (forall p :: 0 <= p < |s.pc| && s.pc[p].Reading() ==> s.readopen && !EndClosing(s, false))
  }

  /** What a process that is about to sleep has just seen. */
  predicate Sleepers(s: State) {
    forall p :: 0 <= p < |s.pc| ==>
      && (s.pc[p].WWake? || s.pc[p].WSleep? || s.pc[p].WDrop? ==> s.Full() && s.readopen)
      && (s.pc[p].RSleep? || s.pc[p].RDrop? ==> s.Empty() && s.writeopen)
  }

  predicate WakesWriters(s: State) {
    s.lock.By? && s.lock.p < |s.pc| && s.pc[s.lock.p].WillWakeWriters()
  }

  predicate WakesReaders(s: State) {
    s.lock.By? && s.lock.p < |s.pc| && s.pc[s.lock.p].WillWakeReaders()
  }

  /** A waiting process is right to wait, or the lock holder is going to wake it. */
  predicate NoLostWakeup(s: State) {
    forall p :: 0 <= p < |s.pc| ==> RightToWait(s, p)
  }

  predicate RightToWait(s: State, p: nat)
    requires p < |s.pc|
  {
    && (s.pc[p].WriterWaits() ==> (s.Full() && s.readopen) || WakesWriters(s))
    && (s.pc[p].ReaderWaits() ==> (s.Empty() && s.writeopen) || WakesReaders(s))
  }

  predicate Inv(s: State) {
    Ring(s) && Locks(s) && Ends(s) && Sleepers(s) && NoLostWakeup(s)
  }

  lemma InitInv(s: State)
    requires Init(s)
    ensures Inv(s)
  {
  }

  // ----- The ring buffer -----

  lemma CountersTell(s: State)
    requires Ring(s)
    ensures s.Full() <==> |s.inserted| == |s.removed| + PIPESIZE
    ensures s.Empty() <==> |s.inserted| == |s.removed|
  {
  }

  /** The wrapped counter gives the same place in the buffer, as PIPESIZE divides 2^32. */
  lemma WrapPlace(n: nat)
    ensures n % WRAP % PIPESIZE == n % PIPESIZE && (n % WRAP + 1) % WRAP == (n + 1) % WRAP
  {
    var q := n / WRAP;
    assert n == q * WRAP + n % WRAP && WRAP == 0x80_0000 * PIPESIZE;
    assert n == (q * 0x80_0000) * PIPESIZE + n % WRAP;
    SameRest(n % WRAP, q * 0x80_0000);
  }

  lemma SameRest(r: nat, k: nat)
    ensures (k * PIPESIZE + r) % PIPESIZE == r % PIPESIZE
  {
  }

  lemma OtherPlace(i: nat, j: nat)
    requires i < j < i + PIPESIZE
    ensures i % PIPESIZE != j % PIPESIZE
  {
  }

  lemma PutRing(s: State, b: Byte)
    requires Ring(s) && !s.Full()
    ensures Ring(Put(s, b))
  {
    CountersTell(s);
    var n := |s.inserted|;
    WrapPlace(n);
    var t := Put(s, b);
    forall i | |t.removed| <= i < |t.inserted| ensures t.data[i % PIPESIZE] == t.inserted[i] {
      if i < n {
        OtherPlace(i, n);
      }
    }
  }

  lemma GetRing(s: State)
    requires Ring(s) && !s.Empty()
    ensures Ring(Get(s)) && Peek(s) == s.inserted[|s.removed|]
  {
    CountersTell(s);
    WrapPlace(|s.removed|);
  }

  // ----- Every step keeps the invariant -----

  predicate Enabled(s: State, p: nat) {
    p < |s.pc| && |s.data| == PIPESIZE && !s.pc[p].Idle?
  }

  lemma WriterRing(s: State, p: nat)
    requires Inv(s) && Enabled(s, p) && s.pc[p].Writing()
    ensures Ring(WriterStep(s, p))
  {
    hide Locks, Ends, Sleepers, NoLostWakeup;
    if s.pc[p].WLoop? && s.pc[p].i < |s.pc[p].addr| && !s.Full() {
      PutRing(s, s.pc[p].addr[s.pc[p].i]);
    }
  }

  lemma ReaderRing(s: State, p: nat)
    requires Inv(s) && Enabled(s, p) && s.pc[p].Reading()
    ensures Ring(ReaderStep(s, p))
  {
    hide Locks, Ends, Sleepers, NoLostWakeup;
    if s.pc[p].RCopy? && |s.pc[p].got| < s.pc[p].n && !s.Empty() {
      GetRing(s);
    }
  }

  lemma CloserRing(s: State, p: nat)
    requires Inv(s) && Enabled(s, p) && s.pc[p].Closing()
    ensures Ring(CloserStep(s, p))
  {
    hide Locks, Ends, Sleepers, NoLostWakeup;
  }

  /** A process does not change what it is doing except to be done with it. */
  predicate SameKind(x: Pc, y: Pc) {
    && (y.Writing() ==> x.Writing()) && (y.Reading() ==> x.Reading())
    && (y.Closing() ==> x.Closing() && y.writable == x.writable)
  }

  predicate LockMoves(lock: Lock, lock': Lock, p: nat) {
    lock' == lock || (lock.Free? && lock' == By(p)) || (lock == By(p) && lock'.Free?)
  }

  /** What a step of p can do: take or give up locks for itself, and wake others. */
  predicate Frame(s: State, t: State, p: nat)
    requires p < |s.pc|
  {
    && Others(s, t, p)
    && LockMoves(s.lock, t.lock, p) && LockMoves(s.ptable, t.ptable, p)
    && LockAt(t.pc[p], p, t.lock, t.ptable) && SameKind(s.pc[p], t.pc[p])
  }

  predicate Others(s: State, t: State, p: nat)
    requires p < |s.pc|
  {
    && |t.pc| == |s.pc|
    && forall q :: 0 <= q < |s.pc| && q != p ==>
         t.pc[q] == s.pc[q] || t.pc[q] == Woken(s.pc[q], true) || t.pc[q] == Woken(s.pc[q], false)
  }

  lemma WriterOthers(s: State, p: nat)
    requires Enabled(s, p) && s.pc[p].Writing()
    ensures Others(s, WriterStep(s, p), p)
  {
    hide State.Full;
  }

  lemma WriterLocks(s: State, p: nat)
    requires Enabled(s, p) && s.pc[p].Writing() && LockAt(s.pc[p], p, s.lock, s.ptable)
    ensures var t := WriterStep(s, p);
            |t.pc| == |s.pc| && LockMoves(s.lock, t.lock, p) && LockMoves(s.ptable, t.ptable, p) && LockAt(t.pc[p], p, t.lock, t.ptable)
  {
    hide State.Full;
  }

  lemma WriterKind(s: State, p: nat)
    requires Enabled(s, p) && s.pc[p].Writing()
    ensures |WriterStep(s, p).pc| == |s.pc| && SameKind(s.pc[p], WriterStep(s, p).pc[p])
  {
    hide State.Full, Woken;
    var y := WriterStep(s, p).pc[p];
    assert y.Idle? || y.Writing();
  }

  lemma WriterFrame(s: State, p: nat)
    requires Enabled(s, p) && s.pc[p].Writing() && LockAt(s.pc[p], p, s.lock, s.ptable)
    ensures Frame(s, WriterStep(s, p), p)
  {
    hide Others, WriterStep, LockAt, LockMoves, SameKind;
    WriterOthers(s, p);
    WriterLocks(s, p);
    WriterKind(s, p);
  }

  lemma ReaderOthers(s: State, p: nat)
    requires Enabled(s, p) && s.pc[p].Reading()
    ensures Others(s, ReaderStep(s, p), p)
  {
    hide State.Empty;
  }

  lemma ReaderLocks(s: State, p: nat)
    requires Enabled(s, p) && s.pc[p].Reading() && LockAt(s.pc[p], p, s.lock, s.ptable)
    ensures var t := ReaderStep(s, p);
            |t.pc| == |s.pc| && LockMoves(s.lock, t.lock, p) && LockMoves(s.ptable, t.ptable, p) && LockAt(t.pc[p], p, t.lock, t.ptable)
  {
    hide State.Empty;
  }

  lemma ReaderKind(s: State, p: nat)
    requires Enabled(s, p) && s.pc[p].Reading()
    ensures |ReaderStep(s, p).pc| == |s.pc| && SameKind(s.pc[p], ReaderStep(s, p).pc[p])
  {
    hide State.Empty, Woken;
    var y := ReaderStep(s, p).pc[p];
    assert y.Idle? || y.Reading();
  }

  lemma ReaderFrame(s: State, p: nat)
    requires Enabled(s, p) && s.pc[p].Reading() && LockAt(s.pc[p], p, s.lock, s.ptable)
    ensures Frame(s, ReaderStep(s, p), p)
  {
    hide Others, ReaderStep, LockAt, LockMoves, SameKind;
    ReaderOthers(s, p);
    ReaderLocks(s, p);
    ReaderKind(s, p);
  }

  lemma CloserFrame(s: State, p: nat)
    requires Enabled(s, p) && s.pc[p].Closing() && LockAt(s.pc[p], p, s.lock, s.ptable)
    ensures Frame(s, CloserStep(s, p), p)
  {
  }

  lemma StepFrame(s: State, p: nat)
    requires Locks(s) && Enabled(s, p)
    ensures Frame(s, Step(s, p), p)
  {
    hide WriterStep, ReaderStep, CloserStep, Frame;
    assert LockAt(s.pc[p], p, s.lock, s.ptable);
    if s.pc[p].Writing() {
      WriterFrame(s, p);
    } else if s.pc[p].Reading() {
      ReaderFrame(s, p);
    } else {
      CloserFrame(s, p);
    }
  }

  lemma WokenAlike(x: Pc, writers: bool)
    ensures SameKind(x, Woken(x, writers))
    ensures Woken(x, writers).HasPipe() == x.HasPipe() && Woken(x, writers).HasPtable() == x.HasPtable()
  {
  }

  lemma StepLocks(s: State, p: nat)
    requires Locks(s) && Enabled(s, p)
    ensures Locks(Step(s, p))
  {
    hide Step, SameKind;
    StepFrame(s, p);
    var t := Step(s, p);
    forall q | 0 <= q < |t.pc| ensures LockAt(t.pc[q], q, t.lock, t.ptable) {
      WokenAlike(s.pc[q], true);
      WokenAlike(s.pc[q], false);
      assert LockAt(s.pc[q], q, s.lock, s.ptable);
    }
  }

  lemma WriterSleepers(s: State, p: nat)
    requires Inv(s) && Enabled(s, p) && s.pc[p].Writing()
    ensures Sleepers(WriterStep(s, p))
  {
    hide Ends, NoLostWakeup;
  }

  lemma ReaderSleepers(s: State, p: nat)
    requires Inv(s) && Enabled(s, p) && s.pc[p].Reading()
    ensures Sleepers(ReaderStep(s, p))
  {
    hide Ends, NoLostWakeup;
  }

  lemma CloserSleepers(s: State, p: nat)
    requires Inv(s) && Enabled(s, p) && s.pc[p].Closing()
    ensures Sleepers(CloserStep(s, p))
  {
    hide Ends, NoLostWakeup;
  }

  lemma WriterNoLost(s: State, p: nat)
    requires Inv(s) && Enabled(s, p) && s.pc[p].Writing()
    ensures NoLostWakeup(WriterStep(s, p))
  {
    var t := WriterStep(s, p);
    forall q | 0 <= q < |t.pc| ensures RightToWait(t, q) {
      assert RightToWait(s, q);
    }
  }

  lemma ReaderNoLost(s: State, p: nat)
    requires Inv(s) && Enabled(s, p) && s.pc[p].Reading()
    ensures NoLostWakeup(ReaderStep(s, p))
  {
    var t := ReaderStep(s, p);
    forall q | 0 <= q < |t.pc| ensures RightToWait(t, q) {
      assert RightToWait(s, q);
    }
  }

  lemma CloserNoLost(s: State, p: nat)
    requires Inv(s) && Enabled(s, p) && s.pc[p].Closing()
    ensures NoLostWakeup(CloserStep(s, p))
  {
    var t := CloserStep(s, p);
    forall q | 0 <= q < |t.pc| ensures RightToWait(t, q) {
      assert RightToWait(s, q);
    }
  }

  lemma OpenKept(s: State, p: nat)
    requires Enabled(s, p)
    ensures s.writeopen && !Step(s, p).writeopen ==> s.pc[p] == CEnter(true)
    ensures s.readopen && !Step(s, p).readopen ==> s.pc[p] == CEnter(false)
  {
  }

  lemma StepKinds(s: State, p: nat, q: nat)
    requires Locks(s) && Enabled(s, p) && q < |s.pc|
    ensures |Step(s, p).pc| == |s.pc| && SameKind(s.pc[q], Step(s, p).pc[q])
  {
    hide Step, LockAt;
    StepFrame(s, p);
    WokenAlike(s.pc[q], true);
    WokenAlike(s.pc[q], false);
  }

  lemma StepEnds(s: State, p: nat)
    requires Locks(s) && Ends(s) && Enabled(s, p)
    ensures Ends(Step(s, p))
  {
    hide Step;
    OpenKept(s, p);
    StepKinds(s, p, p);
    var t := Step(s, p);
    forall w: bool ensures EndClosing(t, w) ==> EndClosing(s, w) {
      if q :| 0 <= q < |t.pc| && t.pc[q].Closing() && t.pc[q].writable == w {
        StepKinds(s, p, q);
      }
    }
    forall q | 0 <= q < |t.pc|
      ensures t.pc[q].Writing() ==> t.writeopen && !EndClosing(t, true)
      ensures t.pc[q].Reading() ==> t.readopen && !EndClosing(t, false)
    {
      StepKinds(s, p, q);
    }
  }

  lemma StepInv(s: State, p: nat)
    requires Inv(s) && Enabled(s, p)
    ensures Inv(Step(s, p))
  {
    hide WriterStep, ReaderStep, CloserStep, Ring, Locks, Ends, Sleepers, NoLostWakeup;
    StepLocks(s, p);
    StepEnds(s, p);
    if s.pc[p].Writing() {
      WriterRing(s, p);
      WriterSleepers(s, p);
      WriterNoLost(s, p);
    } else if s.pc[p].Reading() {
      ReaderRing(s, p);
      ReaderSleepers(s, p);
      ReaderNoLost(s, p);
    } else {
      CloserRing(s, p);
      CloserSleepers(s, p);
      CloserNoLost(s, p);
    }
  }

  lemma BeginInv(s: State, p: nat, call: Call)
    requires Inv(s) && p < |s.pc| && s.pc[p].Idle? && Allowed(s, call)
    ensures Inv(s.Go(p, Entry(call)))
  {
    var t := s.Go(p, Entry(call));
    forall w: bool ensures EndClosing(t, w) ==> EndClosing(s, w) || call == Close(w) {
    }
    forall q | 0 <= q < |t.pc| ensures RightToWait(t, q) {
      assert RightToWait(s, q);
    }
  }

  // ----- The calls -----

  /** A call when it began, with how many bytes had been put in and taken out. */
  datatype Begun = Begun(call: Call, puts: nat, gets: nat)

  /** A call of process p that has returned, with the pipe as it was then. */
  datatype Done = Done(p: nat, begun: Begun, ret: Ret, puts: nat, gets: nat, readopen: bool, writeopen: bool)

  /** The pipe, and what an observer has seen: whose each byte put in is, the call each
      process made last, and the calls that returned. */
  datatype World = World(s: State, whose: seq<nat>, begun: seq<Begun>, done: seq<Done>)

  function Begin(w: World, p: nat, call: Call): World
    requires p < |w.s.pc| && |w.begun| == |w.s.pc|
  {
    w.(s := w.s.Go(p, Entry(call)), begun := w.begun[p := Begun(call, |w.s.inserted|, |w.s.removed|)])
  }

  function Returned(t: State, p: nat, b: Begun): Done
    requires p < |t.pc| && t.pc[p].Idle?
  {
    Done(p, b, t.pc[p].ret, |t.inserted|, |t.removed|, t.readopen, t.writeopen)
  }

  function Act(w: World, p: nat): World
    requires Enabled(w.s, p) && |w.begun| == |w.s.pc|
  {
    var t := Step(w.s, p);
    World(t, if |t.inserted| > |w.s.inserted| then w.whose + [p] else w.whose, w.begun,
          if p < |t.pc| && t.pc[p].Idle? then w.done + [Returned(t, p, w.begun[p])] else w.done)
  }

  ghost predicate Next(w: World, w': World) {
    |w.s.data| == PIPESIZE && |w.begun| == |w.s.pc| &&
    exists p :: 0 <= p < |w.s.pc| &&
      if w.s.pc[p].Idle? then exists call :: Allowed(w.s, call) && w' == Begin(w, p, call) else w' == Act(w, p)
  }

  ghost predicate Run(run: seq<World>) {
    && |run| > 0 && Init(run[0].s) && run[0].whose == [] && run[0].done == [] && |run[0].begun| == |run[0].s.pc|
    && forall i :: 0 <= i < |run| - 1 ==> Next(run[i], run[i + 1])
  }

  /** The bytes of process p among these. */
  function Part(bs: seq<Byte>, whose: seq<nat>, p: nat): (part: seq<Byte>)
    requires |bs| == |whose|
  {
    if bs == [] then []
    else
      var m := |bs| - 1;
      Part(bs[..m], whose[..m], p) + if whose[m] == p then [bs[m]] else []
  }

  /** What p put in between two points. */
  function PutBy(w: World, p: nat, a: nat, b: nat): seq<Byte>
    requires a <= b <= |w.s.inserted| == |w.whose|
  {
    Part(w.s.inserted[a..b], w.whose[a..b], p)
  }

  /** All that reads have returned, in the order in which they did. */
  function Given(done: seq<Done>): seq<Byte> {
    if done == [] then []
    else
      var m := |done| - 1;
      Given(done[..m]) + if done[m].ret.Got? then done[m].ret.bytes else []
  }

  /** What a read that has not returned has taken out. */
  function InHand(s: State): seq<Byte> {
    if s.lock.By? && s.lock.p < |s.pc| && (s.pc[s.lock.p].RCopy? || s.pc[s.lock.p].RWake? || s.pc[s.lock.p].RLeave?)
    then s.pc[s.lock.p].got else []
  }

  /** What a returned call did, from its arguments and what it returned alone. */
  predicate CallOk(w: World, d: Done)
    requires |w.whose| == |w.s.inserted|
  {
    && d.begun.puts <= d.puts <= |w.s.inserted| && d.begun.gets <= d.gets <= |w.s.removed| && d.gets <= d.puts
    && match d.begun.call
       case Write(addr) =>
         var put := PutBy(w, d.p, d.begun.puts, d.puts);
         || (d.ret == Wrote(|addr|) && put == addr)
         || (d.ret == Wrote(-1) && put < addr && d.puts == d.gets + PIPESIZE && !d.readopen)
       case Read(n) =>
         && d.ret.Got? && |d.ret.bytes| <= n && d.begun.gets + |d.ret.bytes| <= d.gets
         && w.s.removed[d.gets - |d.ret.bytes|..d.gets] == d.ret.bytes
         && (|d.ret.bytes| < n ==> d.puts == d.gets)
         && (d.ret.bytes == [] && n > 0 ==> !d.writeopen)
       case Close(writable) => d.ret == Closed && !(if writable then d.writeopen else d.readopen)
  }

  /** How far the call of p has come. */
  predicate Progress(w: World, p: nat)
    requires |w.whose| == |w.s.inserted| && p < |w.s.pc| == |w.begun|
  {
    var x, b := w.s.pc[p], w.begun[p];
    x.Idle? ||
    (&& b.puts <= |w.s.inserted| && b.gets <= |w.s.removed|
     && Going(x, b.call, PutBy(w, p, b.puts, |w.s.inserted|))
     && ReadSoFar(w.s, x, b))
  }

  /** A write in progress has put in the first bytes it was called with. */
  predicate Going(x: Pc, call: Call, put: seq<Byte>) {
    if x.Writing() then
      call.Write? &&
      if x.WEnter? then x.addr == call.addr && put == []
      else if x.WLast? || x.WLeave? then x.n == |call.addr| && put == call.addr
      else x.addr == call.addr && x.i <= |x.addr| && put == x.addr[..x.i]
    else if x.Reading() then
      && call.Read? && (if x.RCopy? || x.RWake? || x.RLeave? then |x.got| <= call.n else true)
      && (if x.RWake? || x.RLeave? then true else x.n == call.n)
    else x.Closing() ==> call.Close? && call.writable == x.writable
  }

  /** A read in progress has what was taken out last, and sees an empty pipe where it
      stopped. */
  predicate ReadSoFar(s: State, x: Pc, b: Begun) {
    && (x.RCopy? || x.RWake? || x.RLeave? ==>
          && b.gets + |x.got| <= |s.removed| && s.removed[|s.removed| - |x.got|..] == x.got
          && (x.got == [] && s.Empty() ==> !s.writeopen))
    && (x.RWake? || x.RLeave? ==> b.call.Read? && (|x.got| < b.call.n ==> s.Empty()))
    && (x.CWake? || x.CLeave? ==> !(if x.writable then s.writeopen else s.readopen))
  }

  predicate Calls(w: World) {
    && |w.whose| == |w.s.inserted| && |w.begun| == |w.s.pc|
    && (forall p :: 0 <= p < |w.s.pc| ==> Progress(w, p))
    && (forall k :: 0 <= k < |w.done| ==> CallOk(w, w.done[k]))
    && w.s.removed == Given(w.done) + InHand(w.s)
  }

  // ----- What a step does to the bytes -----

  /** Bytes are only ever added to what was put in and taken out. */
  predicate Grows(s: State, t: State) {
    && s.inserted <= t.inserted && |t.inserted| <= |s.inserted| + 1 && s.removed <= t.removed && |t.pc| == |s.pc|
  }

  lemma StepGrows(s: State, p: nat)
    requires Enabled(s, p)
    ensures Grows(s, Step(s, p))
  {
    hide State.Full, State.Empty, Woken;
  }

  /** While q has the lock of the pipe, p leaves the pipe alone. */
  lemma LeavesAlone(s: State, p: nat, q: nat)
    requires Locks(s) && Enabled(s, p) && q < |s.pc| && q != p && s.pc[q].HasPipe()
    ensures var t := Step(s, p);
            && t.nread == s.nread && t.nwrite == s.nwrite && t.inserted == s.inserted && t.removed == s.removed
            && t.readopen == s.readopen && t.writeopen == s.writeopen && t.lock == s.lock
  {
    hide Woken, State.Full, State.Empty;
    assert LockAt(s.pc[q], q, s.lock, s.ptable) && LockAt(s.pc[p], p, s.lock, s.ptable);
  }

  // ----- Whose bytes -----

  lemma PartNext(bs: seq<Byte>, whose: seq<nat>, p: nat, b: Byte, q: nat)
    requires |bs| == |whose|
    ensures Part(bs + [b], whose + [q], p) == Part(bs, whose, p) + if q == p then [b] else []
  {
    assert (bs + [b])[..|bs|] == bs && (whose + [q])[..|bs|] == whose;
  }

  lemma PutByKept(w: World, w': World, p: nat, a: nat, b: nat)
    requires a <= b <= |w.s.inserted| == |w.whose| && |w'.s.inserted| == |w'.whose|
    requires w.s.inserted <= w'.s.inserted && w.whose <= w'.whose
    ensures PutBy(w', p, a, b) == PutBy(w, p, a, b)
  {
    assert w'.s.inserted[a..b] == w.s.inserted[a..b] && w'.whose[a..b] == w.whose[a..b];
  }

  lemma PutByNext(w: World, w': World, p: nat, q: nat, a: nat)
    requires a <= |w.s.inserted| == |w.whose| && |w'.s.inserted| == |w.s.inserted| + 1
    requires w.s.inserted <= w'.s.inserted && w'.whose == w.whose + [p]
    ensures PutBy(w', q, a, |w'.s.inserted|) ==
            PutBy(w, q, a, |w.s.inserted|) + if q == p then [w'.s.inserted[|w.s.inserted|]] else []
  {
    hide Part;
    var n, b := |w.s.inserted|, w'.s.inserted[|w.s.inserted|];
    assert w'.s.inserted[a..n + 1] == w.s.inserted[a..n] + [b] && w'.whose[a..n + 1] == w.whose[a..n] + [p];
    PartNext(w.s.inserted[a..n], w.whose[a..n], q, b, p);
  }

  /** The step of p adds a byte of p, or none. */
  lemma PutByAct(w: World, p: nat, q: nat, a: nat)
    requires Enabled(w.s, p) && |w.begun| == |w.s.pc| && |w.whose| == |w.s.inserted| && a <= |w.s.inserted|
    ensures var w', n := Act(w, p), |w.s.inserted|;
            && |w'.whose| == |w'.s.inserted| && w.whose <= w'.whose && Grows(w.s, w'.s)
            && PutBy(w', q, a, |w'.s.inserted|) ==
               if |w'.s.inserted| > n && q == p then PutBy(w, q, a, n) + [w'.s.inserted[n]] else PutBy(w, q, a, n)
  {
    hide Step, PutBy;
    StepGrows(w.s, p);
    var w' := Act(w, p);
    if |w'.s.inserted| > |w.s.inserted| {
      PutByNext(w, w', p, q, a);
    } else {
      PutByKept(w, w', q, a, |w.s.inserted|);
    }
  }

  // ----- The calls of the others -----

  lemma WokenGoing(x: Pc, writers: bool, call: Call, put: seq<Byte>)
    ensures Going(Woken(x, writers), call, put) == Going(x, call, put)
  {
  }

  lemma WokenStays(x: Pc, writers: bool)
    ensures x.HasPipe() || Woken(x, writers).HasPipe() || Woken(x, writers).Idle? || x.Idle? ==> Woken(x, writers) == x
  {
  }

  lemma OtherProgress(w: World, p: nat, q: nat)
    requires Calls(w) && Inv(w.s) && Enabled(w.s, p) && q < |w.s.pc| && q != p
    ensures var w' := Act(w, p); |w'.whose| == |w'.s.inserted| && q < |w'.s.pc| == |w'.begun| && Progress(w', q)
  {
    hide Step, Going, Ring, Ends, Sleepers, NoLostWakeup, LockAt, PutBy, Given, InHand, CallOk, Woken, ReadSoFar, SameKind;
    assert Progress(w, q);
    var s, w' := w.s, Act(w, p);
    StepFrame(s, p);
    StepGrows(s, p);
    PutByAct(w, p, q, if s.pc[q].Idle? then 0 else w.begun[q].puts);
    WokenStays(s.pc[q], true);
    WokenStays(s.pc[q], false);
    if !s.pc[q].Idle? {
      WokenGoing(s.pc[q], true, w.begun[q].call, PutBy(w, q, w.begun[q].puts, |s.inserted|));
      WokenGoing(s.pc[q], false, w.begun[q].call, PutBy(w, q, w.begun[q].puts, |s.inserted|));
      if s.pc[q].HasPipe() {
        LeavesAlone(s, p, q);
        SameRead(s, w'.s, s.pc[q], w.begun[q]);
      } else {
        NotReading(w'.s, w'.s.pc[q], w.begun[q]);
      }
    }
  }

  lemma SameRead(s: State, t: State, x: Pc, b: Begun)
    requires ReadSoFar(s, x, b) && t.nread == s.nread && t.nwrite == s.nwrite && t.removed == s.removed
    requires t.readopen == s.readopen && t.writeopen == s.writeopen
    ensures ReadSoFar(t, x, b)
  {
  }

  lemma NotReading(s: State, x: Pc, b: Begun)
    requires !x.HasPipe()
    ensures ReadSoFar(s, x, b)
  {
  }

  // ----- The call of the process itself -----

  /** What a step of a writer does to its pc and to the bytes. */
  predicate WriterMove(s: State, t: State, x: Pc, y: Pc)
    requires x.Writing()
  {
    && t.removed == s.removed && s.inserted <= t.inserted && !y.RCopy? && !y.RWake? && !y.RLeave? && !y.Closing()
    && (y.Idle? || (y.Writing() && !y.WEnter?) || y == x)
    && if y.WLoop? && x.WLoop? then
         x.i < |x.addr| && y == WLoop(x.addr, x.i + 1) && t.inserted == s.inserted + [x.addr[x.i]]
       else
         && t.inserted == s.inserted
         && (x.WEnter? && y != x ==> y == WLoop(x.addr, 0))
         && (x.WLoop? && y.WLast? ==> x.i >= |x.addr| && y.n == |x.addr|)
         && (x.WLast? || x.WLeave? ==> y.Idle? || ((y.WLast? || y.WLeave?) && y.n == x.n))
         && (!x.WEnter? && !x.WLast? && !x.WLeave? ==>
               y.Idle? || y.WLast? || (y.Writing() && !y.WEnter? && !y.WLeave? && y.addr == x.addr && y.i == x.i))
         && (y.WLast? ==> x.WLast? || x.WLoop?)
  }

  lemma WriterMoves(s: State, p: nat)
    requires Enabled(s, p) && s.pc[p].Writing()
    ensures |Step(s, p).pc| == |s.pc| && WriterMove(s, Step(s, p), s.pc[p], Step(s, p).pc[p])
  {
    hide Woken, State.Full;
  }

  lemma GoingOn(s: State, t: State, x: Pc, y: Pc, call: Call, put: seq<Byte>)
    requires x.Writing() && Going(x, call, put) && WriterMove(s, t, x, y)
    ensures y.Idle? || Going(y, call, put + t.inserted[|s.inserted|..])
  {
    if x.WLoop? && y.WLoop? {
      assert t.inserted[|s.inserted|..] == [x.addr[x.i]];
      assert x.addr[..x.i] + [x.addr[x.i]] == x.addr[..x.i + 1];
    } else {
      assert t.inserted[|s.inserted|..] == [] && put + [] == put;
      if x.WLoop? && y.WLast? {
        assert x.addr[..x.i] == x.addr;
      }
    }
  }

  lemma WriterProgress(w: World, p: nat)
    requires Calls(w) && Inv(w.s) && Enabled(w.s, p) && w.s.pc[p].Writing()
    ensures var w' := Act(w, p); |w'.whose| == |w'.s.inserted| && p < |w'.s.pc| == |w'.begun| && Progress(w', p)
  {
    hide Step, Inv, PutBy, Given, InHand, CallOk, Going;
    assert Progress(w, p);
    WriterMoves(w.s, p);
    PutByAct(w, p, p, w.begun[p].puts);
    var w', put := Act(w, p), PutBy(w, p, w.begun[p].puts, |w.s.inserted|);
    GoingOn(w.s, w'.s, w.s.pc[p], w'.s.pc[p], w.begun[p].call, put);
    var more := w'.s.inserted[|w.s.inserted|..];
    assert more == [] ==> put + more == put;
    assert more != [] ==> more == [w'.s.inserted[|w.s.inserted|]];
  }

  /** What a step of a reader does to its pc and to the bytes. */
  predicate ReaderMove(s: State, t: State, x: Pc, y: Pc)
    requires x.Reading() && |s.data| == PIPESIZE
  {
    && t.inserted == s.inserted && t.writeopen == s.writeopen && t.readopen == s.readopen && t.nwrite == s.nwrite
    && s.removed <= t.removed
    && (y.Idle? || y.Reading())
    && (if y.RCopy? && x.RCopy? then
          && |x.got| < x.n && !s.Empty() && t.removed == s.removed + [Peek(s)] && y == RCopy(x.n, x.got + [Peek(s)])
        else t.removed == s.removed && t.nread == s.nread)
    && (y.RCopy? && !x.RCopy? ==> x.RLoop? && y == RCopy(x.n, []) && !(s.Empty() && s.writeopen))
    && (y.RWake? ==> y == x || (x.RCopy? && y.got == x.got && (|x.got| >= x.n || s.Empty())))
    && (y.RLeave? ==> y == x || (x.RWake? && y.got == x.got))
    && (y.Reading() && !y.RWake? && !y.RLeave? ==> !x.RWake? && !x.RLeave? && y.n == x.n)
  }

  lemma ReaderMoves(s: State, p: nat)
    requires Enabled(s, p) && s.pc[p].Reading()
    ensures |Step(s, p).pc| == |s.pc| && ReaderMove(s, Step(s, p), s.pc[p], Step(s, p).pc[p])
  {
    hide Woken, State.Empty;
  }

  lemma ReadingOn(s: State, t: State, x: Pc, y: Pc, b: Begun, put: seq<Byte>)
    requires x.Reading() && |s.data| == PIPESIZE && Going(x, b.call, put) && b.gets <= |s.removed|
    requires ReadSoFar(s, x, b) && ReaderMove(s, t, x, y)
    ensures y.Idle? || (Going(y, b.call, put) && b.gets <= |t.removed| && ReadSoFar(t, y, b))
  {
    if x.RCopy? && y.RCopy? {
      assert t.removed[|t.removed| - |y.got|..] == s.removed[|s.removed| - |x.got|..] + [Peek(s)];
    } else {
      assert t.removed[|t.removed|..] == [];
    }
  }

  lemma ReaderProgress(w: World, p: nat)
    requires Calls(w) && Inv(w.s) && Enabled(w.s, p) && w.s.pc[p].Reading()
    ensures var w' := Act(w, p); |w'.whose| == |w'.s.inserted| && p < |w'.s.pc| == |w'.begun| && Progress(w', p)
  {
    hide Step, Inv, PutBy, Given, InHand, CallOk, Going, ReadSoFar;
    assert Progress(w, p);
    ReaderMoves(w.s, p);
    PutByAct(w, p, p, w.begun[p].puts);
    ReadingOn(w.s, Act(w, p).s, w.s.pc[p], Act(w, p).s.pc[p], w.begun[p], PutBy(w, p, w.begun[p].puts, |w.s.inserted|));
  }

  lemma CloserProgress(w: World, p: nat)
    requires Calls(w) && Inv(w.s) && Enabled(w.s, p) && w.s.pc[p].Closing()
    ensures var w' := Act(w, p); |w'.whose| == |w'.s.inserted| && p < |w'.s.pc| == |w'.begun| && Progress(w', p)
  {
    hide Ring, Locks, Ends, Sleepers, NoLostWakeup, PutBy, Given, InHand, CallOk, Woken, State.Full, State.Empty;
    assert Progress(w, p);
    StepGrows(w.s, p);
    PutByAct(w, p, p, w.begun[p].puts);
  }

  // ----- The calls that returned -----

  lemma CallKept(w: World, w': World, d: Done)
    requires |w.whose| == |w.s.inserted| && |w'.whose| == |w'.s.inserted| && CallOk(w, d)
    requires w.s.inserted <= w'.s.inserted && w.whose <= w'.whose && w.s.removed <= w'.s.removed
    ensures CallOk(w', d)
  {
    hide PutBy;
    PutByKept(w, w', d.p, d.begun.puts, d.puts);
    if d.begun.call.Read? {
      assert w'.s.removed[d.gets - |d.ret.bytes|..d.gets] == w.s.removed[d.gets - |d.ret.bytes|..d.gets];
    }
  }

  /** The step in which a call returns leaves the bytes alone, and says what it returns. */
  predicate Comes(s: State, t: State, p: nat)
    requires p < |s.pc| == |t.pc| && t.pc[p].Idle?
  {
    var x, ret := s.pc[p], t.pc[p].ret;
    && t.inserted == s.inserted && t.removed == s.removed && t.readopen == s.readopen && t.writeopen == s.writeopen
    && if x.WLoop? then x.i < |x.addr| && s.Full() && !s.readopen && ret == Wrote(-1)
       else if x.WLeave? then ret == Wrote(x.n)
       else if x.RLeave? then ret == Got(x.got)
       else x.CLeave? && ret == Closed
  }

  lemma WriterComes(s: State, p: nat)
    requires Enabled(s, p) && s.pc[p].Writing() && |WriterStep(s, p).pc| == |s.pc| && WriterStep(s, p).pc[p].Idle?
    ensures Comes(s, WriterStep(s, p), p)
  {
    hide Woken, State.Full;
    assert s.pc[p].WLoop? || s.pc[p].WLeave?;
  }

  lemma ReaderComes(s: State, p: nat)
    requires Enabled(s, p) && s.pc[p].Reading() && |ReaderStep(s, p).pc| == |s.pc| && ReaderStep(s, p).pc[p].Idle?
    ensures Comes(s, ReaderStep(s, p), p)
  {
    hide Woken, State.Empty;
    assert s.pc[p].RLeave?;
  }

  lemma ReturnStep(s: State, p: nat)
    requires Enabled(s, p) && p < |Step(s, p).pc| && Step(s, p).pc[p].Idle?
    ensures |Step(s, p).pc| == |s.pc| && Comes(s, Step(s, p), p)
  {
    hide WriterStep, ReaderStep, Comes;
    StepGrows(s, p);
    if s.pc[p].Writing() {
      WriterComes(s, p);
    } else if s.pc[p].Reading() {
      ReaderComes(s, p);
    } else {
      CloserComes(s, p);
    }
  }

  lemma CloserComes(s: State, p: nat)
    requires Enabled(s, p) && s.pc[p].Closing() && |CloserStep(s, p).pc| == |s.pc| && CloserStep(s, p).pc[p].Idle?
    ensures Comes(s, CloserStep(s, p), p)
  {
  }

  /** A process that comes back did what it was called for. */
  lemma ReturnsOk(w: World, p: nat)
    requires Calls(w) && Inv(w.s) && Enabled(w.s, p) && p < |Step(w.s, p).pc| && Step(w.s, p).pc[p].Idle?
    ensures var w' := Act(w, p); |w'.whose| == |w'.s.inserted| && CallOk(w', Returned(w'.s, p, w.begun[p]))
  {
    hide Locks, Ends, Sleepers, NoLostWakeup, PutBy, Given, InHand, Step;
    assert Progress(w, p);
    ReturnStep(w.s, p);
    PutByAct(w, p, p, w.begun[p].puts);
    CountersTell(w.s);
    var x, s := w.s.pc[p], w.s;
    if x.RLeave? {
      assert s.removed[|s.removed| - |x.got|..] == s.removed[|s.removed| - |x.got|..|s.removed|];
    }
  }

  /** From s to t a read returned what was in hand, or what was taken out is now in hand. */
  predicate Moved(s: State, t: State, p: nat)
    requires p < |t.pc|
  {
    s.removed <= t.removed &&
    if t.pc[p].Idle? && t.pc[p].ret.Got? then t.removed == s.removed && InHand(s) == t.pc[p].ret.bytes && InHand(t) == []
    else InHand(t) == InHand(s) + t.removed[|s.removed|..]
  }

  lemma MovedNothing(s: State, t: State, p: nat)
    requires p < |t.pc| && t.removed == s.removed && InHand(t) == InHand(s) && !(t.pc[p].Idle? && t.pc[p].ret.Got?)
    ensures Moved(s, t, p)
  {
    hide InHand;
    assert t.removed[|s.removed|..] == [];
  }

  lemma OtherHand(s: State, p: nat)
    requires Locks(s) && Enabled(s, p) && s.lock != By(p)
    ensures |Step(s, p).pc| == |s.pc| && Moved(s, Step(s, p), p)
  {
    hide WriterStep, ReaderStep, CloserStep, Moved;
    assert LockAt(s.pc[p], p, s.lock, s.ptable);
    StepFrame(s, p);
    Outside(s, p);
    var t := Step(s, p);
    if s.lock.By? && s.lock.p < |s.pc| {
      var q := s.lock.p;
      assert LockAt(s.pc[q], q, s.lock, s.ptable);
      WokenStays(s.pc[q], true);
      WokenStays(s.pc[q], false);
    }
    MovedNothing(s, t, p);
  }

  /** A step without the lock of the pipe. */
  predicate Outer(s: State, t: State, p: nat)
    requires p < |t.pc|
  {
    && t.removed == s.removed && !t.pc[p].Idle? && (s.lock.By? ==> t.lock == s.lock)
    && !(t.pc[p].RCopy? || t.pc[p].RWake? || t.pc[p].RLeave?)
  }

  lemma WriterOuter(s: State, p: nat)
    requires Enabled(s, p) && s.pc[p].Writing() && !s.pc[p].HasPipe()
    ensures |WriterStep(s, p).pc| == |s.pc| && Outer(s, WriterStep(s, p), p)
  {
  }

  lemma ReaderOuter(s: State, p: nat)
    requires Enabled(s, p) && s.pc[p].Reading() && !s.pc[p].HasPipe()
    ensures |ReaderStep(s, p).pc| == |s.pc| && Outer(s, ReaderStep(s, p), p)
  {
  }

  lemma Outside(s: State, p: nat)
    requires Enabled(s, p) && !s.pc[p].HasPipe()
    ensures |Step(s, p).pc| == |s.pc| && Outer(s, Step(s, p), p)
  {
    hide WriterStep, ReaderStep;
    if s.pc[p].Writing() {
      WriterOuter(s, p);
    } else if s.pc[p].Reading() {
      ReaderOuter(s, p);
    }
  }

  /** What the holder of the lock has in hand. */
  function Hand(x: Pc): seq<Byte> {
    if x.RCopy? || x.RWake? || x.RLeave? then x.got else []
  }

  lemma WriterHand(s: State, p: nat)
    requires Enabled(s, p) && s.pc[p].Writing() && s.pc[p].HasPipe()
    ensures var t := WriterStep(s, p);
            |t.pc| == |s.pc| && t.removed == s.removed && Hand(t.pc[p]) == [] && !(t.pc[p].Idle? && t.pc[p].ret.Got?)
  {
    hide Woken, State.Full;
  }

  lemma ReaderHand(s: State, p: nat)
    requires Enabled(s, p) && s.pc[p].Reading() && s.pc[p].HasPipe()
    ensures var t, x := ReaderStep(s, p), s.pc[p];
            && |t.pc| == |s.pc|
            && (if t.pc[p].Idle? then t.removed == s.removed && x.RLeave? && t.pc[p].ret == Got(x.got) && t.lock != By(p)
                else if x.RCopy? && t.pc[p].RCopy? then t.removed == s.removed + [Peek(s)] && t.pc[p].got == x.got + [Peek(s)]
                else t.removed == s.removed && Hand(t.pc[p]) == Hand(x))
            && (Hand(t.pc[p]) != [] ==> t.lock == s.lock)
  {
    hide Woken, State.Empty;
  }

  lemma OwnHand(s: State, p: nat)
    requires Locks(s) && Enabled(s, p) && s.lock == By(p)
    ensures |Step(s, p).pc| == |s.pc| && Moved(s, Step(s, p), p)
  {
    hide WriterStep, ReaderStep;
    assert LockAt(s.pc[p], p, s.lock, s.ptable);
    StepFrame(s, p);
    var t := Step(s, p);
    if s.pc[p].Writing() {
      WriterHand(s, p);
    } else if s.pc[p].Reading() {
      ReaderHand(s, p);
    }
    assert t.removed == s.removed ==> t.removed[|s.removed|..] == [];
    assert t.removed == s.removed + [Peek(s)] ==> t.removed[|s.removed|..] == [Peek(s)];
  }

  /** Bytes taken out are in the hands of a reader until its read returns them. */
  lemma HandsOver(w: World, p: nat)
    requires Calls(w) && Inv(w.s) && Enabled(w.s, p)
    ensures Act(w, p).s.removed == Given(Act(w, p).done) + InHand(Act(w, p).s)
  {
    hide Step, Locks, Ring, Ends, Sleepers, NoLostWakeup, CallOk, Progress, InHand;
    var s, w' := w.s, Act(w, p);
    if s.lock == By(p) {
      OwnHand(s, p);
    } else {
      OtherHand(s, p);
    }
    if |w'.done| > |w.done| {
      assert w'.done[..|w.done|] == w.done;
    }
    var more := w'.s.removed[|s.removed|..];
    assert w'.s.removed == s.removed + more;
    assert Given(w.done) + InHand(s) + more == Given(w.done) + (InHand(s) + more);
  }

  lemma ActCalls(w: World, p: nat)
    requires Calls(w) && Inv(w.s) && Enabled(w.s, p)
    ensures Calls(Act(w, p))
  {
    hide Step, Inv, PutBy, CallOk, Progress, Given, InHand;
    var w' := Act(w, p);
    StepGrows(w.s, p);
    PutByAct(w, p, p, 0);
    HandsOver(w, p);
    forall q | 0 <= q < |w'.s.pc| ensures Progress(w', q) {
      if q != p {
        OtherProgress(w, p, q);
      } else {
        OwnProgress(w, p);
      }
    }
    forall k | 0 <= k < |w'.done| ensures CallOk(w', w'.done[k]) {
      if k < |w.done| {
        assert CallOk(w, w.done[k]);
        CallKept(w, w', w.done[k]);
      } else {
        ReturnsOk(w, p);
      }
    }
  }

  lemma OwnProgress(w: World, p: nat)
    requires Calls(w) && Inv(w.s) && Enabled(w.s, p)
    ensures var w' := Act(w, p); |w'.whose| == |w'.s.inserted| && p < |w'.s.pc| == |w'.begun| && Progress(w', p)
  {
    hide Act, Inv, Calls, Progress;
    if w.s.pc[p].Writing() {
      WriterProgress(w, p);
    } else if w.s.pc[p].Reading() {
      ReaderProgress(w, p);
    } else {
      CloserProgress(w, p);
    }
  }

  lemma BeginCalls(w: World, p: nat, call: Call)
    requires Calls(w) && Inv(w.s) && p < |w.s.pc| && w.s.pc[p].Idle?
    ensures Calls(Begin(w, p, call))
  {
    hide Ring, Ends, Sleepers, NoLostWakeup, CallOk, Given;
    var w' := Begin(w, p, call);
    assert LockAt(w.s.pc[p], p, w.s.lock, w.s.ptable);
    forall q | 0 <= q < |w'.s.pc| ensures Progress(w', q) {
      assert Progress(w, q);
      if q != p && !w.s.pc[q].Idle? {
        PutByKept(w, w', q, w.begun[q].puts, |w.s.inserted|);
      }
    }
    forall k | 0 <= k < |w'.done| ensures CallOk(w', w'.done[k]) {
      CallKept(w, w', w.done[k]);
    }
  }

  // ----- Every run -----

  lemma {:induction false} RunInv(run: seq<World>, k: nat)
    requires Run(run) && k < |run|
    ensures Inv(run[k].s) && Calls(run[k])
  {
    hide Inv, Calls, Init, Act, Begin, Allowed, Step;
    if k == 0 {
      FirstWorld(run[0]);
    } else {
      RunInv(run, k - 1);
      var w, w' := run[k - 1], run[k];
      assert Next(w, w');
      var p :| 0 <= p < |w.s.pc| &&
        if w.s.pc[p].Idle? then exists call :: Allowed(w.s, call) && w' == Begin(w, p, call) else w' == Act(w, p);
      if w.s.pc[p].Idle? {
        var call :| Allowed(w.s, call) && w' == Begin(w, p, call);
        BeginInv(w.s, p, call);
        BeginCalls(w, p, call);
        BeginState(w, p, call);
      } else {
        StepInv(w.s, p);
        ActCalls(w, p);
        ActState(w, p);
      }
    }
  }

  lemma BeginState(w: World, p: nat, call: Call)
    requires p < |w.s.pc| && |w.begun| == |w.s.pc|
    ensures Begin(w, p, call).s == w.s.Go(p, Entry(call))
  {
  }

  lemma ActState(w: World, p: nat)
    requires Enabled(w.s, p) && |w.begun| == |w.s.pc|
    ensures Act(w, p).s == Step(w.s, p)
  {
    hide Step;
  }

  lemma FirstWorld(w: World)
    requires Init(w.s) && w.whose == [] && w.done == [] && |w.begun| == |w.s.pc|
    ensures Inv(w.s) && Calls(w)
  {
    InitInv(w.s);
  }

  /** In every state of every run, the bytes taken out are the first ones put in and at
      most PIPESIZE are outstanding; and whenever the pipe lock is free, a writer is
      asleep only while the pipe is full and its reader open, and a reader only while
      the pipe is empty and its writer open. When both ends are closed, and the pipe's page
      is freed, nobody is reading or writing. */
  lemma PipeSafe(run: seq<World>, k: nat)
    requires Run(run) && k < |run|
    ensures var s := run[k].s;
            && s.removed <= s.inserted && |s.inserted| <= |s.removed| + PIPESIZE
            && (s.lock.Free? ==> forall p :: 0 <= p < |s.pc| ==>
                  && (s.pc[p].WAsleep? ==> |s.inserted| == |s.removed| + PIPESIZE && s.readopen)
                  && (s.pc[p].RAsleep? ==> |s.inserted| == |s.removed| && s.writeopen))
            && (!s.readopen && !s.writeopen ==> forall p :: 0 <= p < |s.pc| ==> !s.pc[p].Reading() && !s.pc[p].Writing())
  {
    hide Run, Ring, Calls, EndClosing;
    RunInv(run, k);
    var s := run[k].s;
    RingOf(s);
    CountersTell(s);
    if s.lock.Free? {
      forall p | 0 <= p < |s.pc|
        ensures s.pc[p].WAsleep? ==> |s.inserted| == |s.removed| + PIPESIZE && s.readopen
        ensures s.pc[p].RAsleep? ==> |s.inserted| == |s.removed| && s.writeopen
      {
        assert RightToWait(s, p);
      }
    }
  }

  lemma RingOf(s: State)
    requires Ring(s)
    ensures s.removed <= s.inserted && |s.inserted| <= |s.removed| + PIPESIZE
  {
  }

  /** In every state of every run every call that returned did what its arguments and its
      result say; a write in progress has put in the first bytes it was called with; and
      what readers were given, call by call in the order of their return, is what was
      taken out, but for what one of them has in hand. */
  lemma PipeCalls(run: seq<World>, k: nat)
    requires Run(run) && k < |run|
    ensures var w := run[k];
            && |w.whose| == |w.s.inserted| && |w.begun| == |w.s.pc|
            && (forall j :: 0 <= j < |w.done| ==> CallOk(w, w.done[j]))
            && (forall p :: 0 <= p < |w.s.pc| && w.s.pc[p].Writing() ==>
                  && w.begun[p].call.Write? && w.begun[p].puts <= |w.s.inserted|
                  && PutBy(w, p, w.begun[p].puts, |w.s.inserted|) <= w.begun[p].call.addr)
            && Given(w.done) <= w.s.removed <= w.s.inserted && (w.s.lock.Free? ==> Given(w.done) == w.s.removed)
  {
    hide Run, Ring, Locks, Ends, Sleepers, NoLostWakeup, PutBy, CallOk, Given;
    RunInv(run, k);
    var w := run[k];
    RingOf(w.s);
    forall p | 0 <= p < |w.s.pc| && w.s.pc[p].Writing()
      ensures w.begun[p].call.Write? && w.begun[p].puts <= |w.s.inserted|
      ensures PutBy(w, p, w.begun[p].puts, |w.s.inserted|) <= w.begun[p].call.addr
    {
      assert Progress(w, p);
    }
  }
}
