/** The buffered audit logger and its shutdown protocol (internal/auditlog/logger.go): any
    number of Write calls, the flush goroutine and any number of Close calls interleave over
    the closed flag, the `writes` wait group, the bounded buffer and the done channel.

    Each atomic operation of each goroutine is one action.  A Write call is named by a number
    that also stands for the entry it was given; nil entries return at once and are left out. */
module AuditLogger {

  const BATCH_FLUSH_THRESHOLD := 100

  type Call = nat

  datatype Outcome = Accepted | Dropped | Refused

  // Where a Write call stands
  datatype WriterPc =
    | Checked             // first load of closed gave false
    | Registered          // after writes.Add(1)
    | Admitted            // second load of closed gave false
    | Leaving(o: Outcome) // deferred writes.Done() still to run
    | Returned(o: Outcome)

  datatype FlusherPc = Selecting | Flushing | Draining | FinalFlush | StoreFlush | Exiting | Exited

  // Where a Close call stands; only the call whose Swap won gets further than Lost.  Wait
  // returns at once when the count is zero and else parks; a parked Wait is released when Done
  // brings the count to zero, and panics if it wakes up to find that the count is not zero.
  datatype CloserPc = WaitWrites | Parked | Signal | WaitFlusher | CloseStore | Won | Lost | Panicked

  datatype StoreOp = WriteBatch(entries: seq<Call>) | Flush | Close

  datatype State = State(
    capacity: nat,
    closed: bool,
    writes: int,
    released: bool,              // the parked Wait on `writes` has been woken up
    buffer: seq<Call>,
    done: bool,
    flusher: FlusherPc,
    batch: seq<Call>,
    store: seq<StoreOp>,         // every call made on the store
    writers: map<Call, WriterPc>,
    closers: map<nat, CloserPc>,
    accepted: seq<Call>)         // calls in the order of their sends into the buffer

  datatype Action =
    | Begin(w: Call) | Register(w: Call) | Recheck(w: Call) | Send(w: Call) | Finish(w: Call)
    | Receive | Tick | WriteOut | SeeDone | DrainOne | DrainEmpty | WriteRest | FlushStore | Exit
    | Swap(c: nat) | PassWrites(c: nat) | Park(c: nat) | Wake(c: nat) | SignalDone(c: nat) | PassFlusher(c: nat)
    | CloseTheStore(c: nat)

  predicate WriterAt(s: State, w: Call, pc: WriterPc) { w in s.writers && s.writers[w] == pc }

  predicate CloserAt(s: State, c: nat, pc: CloserPc) { c in s.closers && s.closers[c] == pc }

  predicate Enabled(s: State, a: Action) {
    match a
    case Begin(w) => w !in s.writers
    case Register(w) => WriterAt(s, w, Checked)
    case Recheck(w) => WriterAt(s, w, Registered)
    case Send(w) => WriterAt(s, w, Admitted)
    case Finish(w) => w in s.writers && s.writers[w].Leaving?
    case Receive => s.flusher == Selecting && s.buffer != []
    case Tick => s.flusher == Selecting
    case WriteOut => s.flusher == Flushing
    case SeeDone => s.flusher == Selecting && s.done
    case DrainOne => s.flusher == Draining && s.buffer != []
    case DrainEmpty => s.flusher == Draining && s.buffer == []
    case WriteRest => s.flusher == FinalFlush
    case FlushStore => s.flusher == StoreFlush
    case Exit => s.flusher == Exiting
    case Swap(c) => c !in s.closers
    case PassWrites(c) => CloserAt(s, c, WaitWrites) && s.writes == 0
    case Park(c) => CloserAt(s, c, WaitWrites) && s.writes != 0
    case Wake(c) => CloserAt(s, c, Parked) && s.released
    case SignalDone(c) => CloserAt(s, c, Signal)
    case PassFlusher(c) => CloserAt(s, c, WaitFlusher) && s.flusher == Exited
    case CloseTheStore(c) => CloserAt(s, c, CloseStore)
  }

  function MoveWriter(s: State, w: Call, pc: WriterPc): State {
    s.(writers := s.writers[w := pc])
  }

  function MoveCloser(s: State, c: nat, pc: CloserPc): State {
    s.(closers := s.closers[c := pc])
  }

  function WriteBatchOut(s: State): State {
    if s.batch == [] then s else s.(store := s.store + [WriteBatch(s.batch)], batch := [])
  }

  predicate OfWriter(a: Action) { a.Begin? || a.Register? || a.Recheck? || a.Send? || a.Finish? }

  predicate OfCloser(a: Action) {
    a.Swap? || a.PassWrites? || a.Park? || a.Wake? || a.SignalDone? || a.PassFlusher? || a.CloseTheStore?
  }

  predicate AnyParked(closers: map<nat, CloserPc>) { exists c :: c in closers && closers[c] == Parked }

  function AfterWriter(s: State, a: Action): State
    requires OfWriter(a) && Enabled(s, a)
  {
    match a
    case Begin(w) => MoveWriter(s, w, if s.closed then Returned(Refused) else Checked)
    case Register(w) => MoveWriter(s, w, Registered).(writes := s.writes + 1)
    case Recheck(w) => MoveWriter(s, w, if s.closed then Leaving(Refused) else Admitted)
    case Send(w) =>
      if |s.buffer| < s.capacity then
        MoveWriter(s, w, Leaving(Accepted)).(buffer := s.buffer + [w], accepted := s.accepted + [w])
      else
        MoveWriter(s, w, Leaving(Dropped))
    case Finish(w) =>
      MoveWriter(s, w, Returned(s.writers[w].o)).(
        writes := s.writes - 1, released := s.released || (s.writes == 1 && AnyParked(s.closers)))
  }

  function AfterFlusher(s: State, a: Action): State
    requires !OfWriter(a) && !OfCloser(a) && Enabled(s, a)
  {
    match a
    case Receive =>
      var batch := s.batch + [s.buffer[0]];
      s.(buffer := s.buffer[1..], batch := batch,
         flusher := if |batch| >= BATCH_FLUSH_THRESHOLD then Flushing else Selecting)
    case Tick => s.(flusher := if s.batch == [] then Selecting else Flushing)
    case WriteOut => WriteBatchOut(s).(flusher := Selecting)
    case SeeDone => s.(flusher := Draining)
    case DrainOne => s.(buffer := s.buffer[1..], batch := s.batch + [s.buffer[0]])
    case DrainEmpty => s.(flusher := FinalFlush)
    case WriteRest => WriteBatchOut(s).(flusher := StoreFlush)
    case FlushStore => s.(store := s.store + [Flush], flusher := Exiting)
    case Exit => s.(flusher := Exited)
  }

  function AfterCloser(s: State, a: Action): State
    requires OfCloser(a) && Enabled(s, a)
  {
    match a
    case Swap(c) => MoveCloser(s, c, if s.closed then Lost else WaitWrites).(closed := true)
    case PassWrites(c) => MoveCloser(s, c, Signal)
    case Park(c) => MoveCloser(s, c, Parked)
    case Wake(c) => MoveCloser(s, c, if s.writes == 0 then Signal else Panicked)
    case SignalDone(c) => MoveCloser(s, c, WaitFlusher).(done := true)
    case PassFlusher(c) => MoveCloser(s, c, CloseStore)
    case CloseTheStore(c) => MoveCloser(s, c, Won).(store := s.store + [Close])
  }

  function After(s: State, a: Action): State
    requires Enabled(s, a)
  {
    if OfWriter(a) then AfterWriter(s, a) else if OfCloser(a) then AfterCloser(s, a) else AfterFlusher(s, a)
  }

  /** A new logger; a BufferSize of zero or less becomes 1000. */
  function Fresh(bufferSize: int): State {
    State(if bufferSize <= 0 then 1000 else bufferSize,
          false, 0, false, [], false, Selecting, [], [], map[], map[], [])
  }

  /** Performing the actions in order from `s` is possible and ends in `t`. */
  ghost predicate Run(s: State, actions: seq<Action>, t: State)
    decreases |actions|
  {
    if actions == [] then s == t
    else Enabled(s, actions[0]) && Run(After(s, actions[0]), actions[1..], t)
  }

  // What the store has been given

  function Written(ops: seq<StoreOp>): seq<Call> {
    if ops == [] then []
    else Written(ops[..|ops| - 1]) + (if ops[|ops| - 1].WriteBatch? then ops[|ops| - 1].entries else [])
  }

  lemma WrittenMore(ops: seq<StoreOp>, op: StoreOp)
    ensures Written(ops + [op]) == Written(ops) + (if op.WriteBatch? then op.entries else [])
  {
    assert (ops + [op])[..|ops|] == ops;
  }

  // The invariant

  predicate InFlight(pc: WriterPc) { pc.Registered? || pc.Admitted? || pc.Leaving? }

  predicate IsAccepted(pc: WriterPc) { (pc.Leaving? || pc.Returned?) && pc.o == Accepted }

  function Registrations(writers: map<Call, WriterPc>): set<Call> {
    set w | w in writers && InFlight(writers[w])
  }

  /** `writes` counts the calls between Add and Done. */
  ghost predicate WritesCounted(s: State) {
    s.writes == |Registrations(s.writers)|
  }

  /** Nothing accepted is lost, duplicated or reordered on its way to the store. */
  ghost predicate FlowsInOrder(s: State) {
    Written(s.store) + s.batch + s.buffer == s.accepted && |s.buffer| <= s.capacity
  }

  /** A call is accepted once, exactly when its outcome says so. */
  ghost predicate AcceptedOnce(s: State) {
    && (forall i, j :: 0 <= i < j < |s.accepted| ==> s.accepted[i] != s.accepted[j])
    && (forall w :: w in s.accepted <==> w in s.writers && IsAccepted(s.writers[w]))
  }

  predicate Winning(pc: CloserPc) { pc != Lost }

  predicate PastWrites(pc: CloserPc) { pc.Signal? || pc.WaitFlusher? || pc.CloseStore? || pc.Won? }

  ghost predicate Any(closers: map<nat, CloserPc>, p: CloserPc -> bool) {
    exists c :: c in closers && p(closers[c])
  }

  /** Some Close call has got past waiting for the writers. */
  ghost predicate Sealed(s: State) { Any(s.closers, PastWrites) }

  /** Closed holds exactly when one Close call has won the swap. */
  ghost predicate OneWinner(s: State) {
    && (forall c, d :: c in s.closers && d in s.closers && Winning(s.closers[c]) && Winning(s.closers[d]) ==> c == d)
    && (s.closed <==> Any(s.closers, Winning))
  }

  /** Once the winner has passed the writers' wait, no Write can reach its send. */
  ghost predicate SealedOff(s: State) {
    Sealed(s) ==> forall w :: w in s.writers ==> s.writers[w] != Admitted
  }

  predicate Signalled(pc: CloserPc) { pc.WaitFlusher? || pc.CloseStore? || pc.Won? }

  ghost predicate DoneBySignal(s: State) {
    && (s.done <==> Any(s.closers, Signalled))
    && (forall c :: c in s.closers && (s.closers[c].CloseStore? || s.closers[c].Won?) ==> s.flusher == Exited)
  }

  ghost predicate RefusedWhenClosed(s: State) {
    forall w :: w in s.writers && (s.writers[w] == Leaving(Refused) || s.writers[w] == Returned(Refused)) ==> s.closed
  }

  predicate IsWon(pc: CloserPc) { pc.Won? }

  ghost predicate HasWon(s: State) { Any(s.closers, IsWon) }

  predicate IsBatch(op: StoreOp) { op.WriteBatch? && op.entries != [] }

  predicate HasFlushed(s: State) { s.flusher == Exiting || s.flusher == Exited }

  /** The store calls are non-empty batches and then exactly `tail`. */
  ghost predicate BatchesThen(ops: seq<StoreOp>, tail: seq<StoreOp>) {
    exists n :: 0 <= n <= |ops| && ops[n..] == tail && forall i :: 0 <= i < n ==> IsBatch(ops[i])
  }

  /** The goroutine drains only after the signal, leaving nothing in buffer or batch. */
  ghost predicate FlusherPhases(s: State) {
    && (s.flusher != Selecting && s.flusher != Flushing ==> s.done)
    && (s.flusher in {FinalFlush, StoreFlush, Exiting, Exited} ==> s.buffer == [])
    && (s.flusher in {StoreFlush, Exiting, Exited} ==> s.batch == [])
    && (s.flusher == Selecting ==> |s.batch| < BATCH_FLUSH_THRESHOLD)
    && (s.flusher == Flushing ==> s.batch != [])
  }

  function StoreTail(flushed: bool, won: bool): seq<StoreOp> {
    (if flushed then [Flush] else []) + (if won then [Close] else [])
  }

  /** The store sees non-empty batches, one Flush as the goroutine ends, then one Close. */
  ghost predicate StoreCalls(s: State) {
    BatchesThen(s.store, StoreTail(HasFlushed(s), HasWon(s)))
  }

  /** A parked Wait is released when the count reaches zero, and not before. */
  ghost predicate WaitsRight(s: State) {
    && (s.released ==> s.closed)
    && (forall c :: c in s.closers && s.closers[c].WaitWrites? ==> !s.released)
    && (forall c :: c in s.closers && s.closers[c].Parked? && !s.released ==> s.writes != 0)
  }

  ghost predicate Inv(s: State) {
    && WritesCounted(s) && FlowsInOrder(s) && AcceptedOnce(s)
    && OneWinner(s) && SealedOff(s) && DoneBySignal(s) && RefusedWhenClosed(s)
    && FlusherPhases(s) && StoreCalls(s) && WaitsRight(s)
  }

  // Every action keeps the invariant

  lemma RegistrationsMove(writers: map<Call, WriterPc>, w: Call, pc: WriterPc)
    ensures var before, after := Registrations(writers), Registrations(writers[w := pc]);
      |after| == |before| - (if w in writers && InFlight(writers[w]) then 1 else 0) + (if InFlight(pc) then 1 else 0)
  {
    var before, after := Registrations(writers), Registrations(writers[w := pc]);
    assert after == if InFlight(pc) then (before - {w}) + {w} else before - {w};
  }

  // What the actions of each goroutine leave alone

  lemma WriterKeeps(s: State, a: Action)
    requires OfWriter(a) && Enabled(s, a)
    ensures var t := AfterWriter(s, a);
      && t.capacity == s.capacity && t.closed == s.closed && t.done == s.done && t.flusher == s.flusher
      && t.batch == s.batch && t.store == s.store && t.closers == s.closers
      && (!a.Send? ==> t.buffer == s.buffer && t.accepted == s.accepted)
  {
    hide Enabled, WriterAt, AnyParked;
  }

  lemma WriterMoves(s: State, a: Action)
    requires OfWriter(a) && Enabled(s, a)
    ensures var t := AfterWriter(s, a);
      && t.writers.Keys == s.writers.Keys + {a.w} && t.writers == s.writers[a.w := t.writers[a.w]]
      && t.released == (s.released || (a.Finish? && s.writes == 1 && AnyParked(s.closers)))
      && t.writes == s.writes + (if a.Register? then 1 else 0) - (if a.Finish? then 1 else 0)
  {
    hide Enabled, WriterAt, AnyParked;
  }

  lemma WriterFrame(s: State, a: Action)
    requires OfWriter(a) && Enabled(s, a)
    ensures var t := AfterWriter(s, a);
      && t.capacity == s.capacity && t.closed == s.closed && t.done == s.done && t.flusher == s.flusher
      && t.batch == s.batch && t.store == s.store && t.closers == s.closers
      && t.writers.Keys == s.writers.Keys + {a.w} && t.writers == s.writers[a.w := t.writers[a.w]]
      && (!a.Send? ==> t.buffer == s.buffer && t.accepted == s.accepted)
      && t.released == (s.released || (a.Finish? && s.writes == 1 && AnyParked(s.closers)))
      && t.writes == s.writes + (if a.Register? then 1 else 0) - (if a.Finish? then 1 else 0)
  {
    hide AfterWriter, Enabled;
    WriterKeeps(s, a);
    WriterMoves(s, a);
  }

  lemma FlusherFrame(s: State, a: Action)
    requires !OfWriter(a) && !OfCloser(a) && Enabled(s, a)
    ensures var t := AfterFlusher(s, a);
      && t.capacity == s.capacity && t.closed == s.closed && t.done == s.done && t.writes == s.writes
      && t.writers == s.writers && t.closers == s.closers && t.accepted == s.accepted && t.released == s.released
  {
    hide Enabled;
  }

  lemma CloserFrame(s: State, a: Action)
    requires OfCloser(a) && Enabled(s, a)
    ensures var t := AfterCloser(s, a);
      && t.capacity == s.capacity && t.writes == s.writes && t.buffer == s.buffer && t.flusher == s.flusher
      && t.batch == s.batch && t.writers == s.writers && t.accepted == s.accepted && t.released == s.released
      && t.closed == (s.closed || a.Swap?) && t.done == (s.done || a.SignalDone?)
      && t.store == s.store + (if a.CloseTheStore? then [Close] else [])
      && t.closers.Keys == s.closers.Keys + {a.c} && t.closers == s.closers[a.c := t.closers[a.c]]
  {
    hide Enabled;
  }

  lemma WritesCountedByWriter(s: State, a: Action)
    requires WritesCounted(s) && OfWriter(a) && Enabled(s, a)
    ensures WritesCounted(AfterWriter(s, a))
  {
    hide Registrations;
    WriterFrame(s, a);
    RegistrationsMove(s.writers, a.w, AfterWriter(s, a).writers[a.w]);
  }

  lemma KeepsWritesCounted(s: State, a: Action)
    requires WritesCounted(s) && Enabled(s, a)
    ensures WritesCounted(After(s, a))
  {
    hide AfterWriter, AfterFlusher, AfterCloser, Enabled;
    if OfWriter(a) {
      WritesCountedByWriter(s, a);
    } else if OfCloser(a) {
      CloserFrame(s, a);
    } else {
      FlusherFrame(s, a);
    }
  }

  // Accepted entries on their way

  lemma BatchWrittenOut(s: State)
    ensures var t := WriteBatchOut(s); Written(t.store) + t.batch == Written(s.store) + s.batch && t.buffer == s.buffer
  {
    WrittenMore(s.store, WriteBatch(s.batch));
  }

  lemma SendFlows(s: State, w: Call)
    requires FlowsInOrder(s) && Enabled(s, Send(w))
    ensures FlowsInOrder(AfterWriter(s, Send(w)))
  {
    hide Written;
    assert Written(s.store) + s.batch + (s.buffer + [w]) == Written(s.store) + s.batch + s.buffer + [w];
  }

  lemma TakeFlows(s: State, a: Action)
    requires FlowsInOrder(s) && (a.Receive? || a.DrainOne?) && Enabled(s, a)
    ensures FlowsInOrder(AfterFlusher(s, a))
  {
    hide Written;
    assert Written(s.store) + s.batch + s.buffer == Written(s.store) + (s.batch + [s.buffer[0]]) + s.buffer[1..];
  }

  lemma FlusherFlows(s: State, a: Action)
    requires FlowsInOrder(s) && !OfWriter(a) && !OfCloser(a) && Enabled(s, a)
    ensures FlowsInOrder(AfterFlusher(s, a))
  {
    hide Written;
    if a.Receive? || a.DrainOne? {
      TakeFlows(s, a);
    } else {
      BatchWrittenOut(s);
      WrittenMore(s.store, Flush);
      hide WriteBatchOut;
      assert Written(s.store) + [] == Written(s.store);
    }
  }

  lemma KeepsFlowsInOrder(s: State, a: Action)
    requires FlowsInOrder(s) && Enabled(s, a)
    ensures FlowsInOrder(After(s, a))
  {
    hide AfterWriter, AfterFlusher, AfterCloser, Written, Enabled;
    if OfWriter(a) {
      WriterFrame(s, a);
      if a.Send? {
        SendFlows(s, a.w);
      }
    } else if OfCloser(a) {
      CloserFrame(s, a);
      WrittenMore(s.store, Close);
      assert Written(s.store) + [] == Written(s.store) && s.store + [] == s.store;
    } else {
      FlusherFlows(s, a);
    }
  }

  lemma AcceptedOnceByWriter(s: State, a: Action)
    requires AcceptedOnce(s) && OfWriter(a) && Enabled(s, a)
    ensures AcceptedOnce(AfterWriter(s, a))
  {
    if a.Send? {
      assert a.w !in s.accepted;
    }
  }

  lemma KeepsAcceptedOnce(s: State, a: Action)
    requires AcceptedOnce(s) && Enabled(s, a)
    ensures AcceptedOnce(After(s, a))
  {
    hide AfterWriter, AfterFlusher, AfterCloser, Enabled;
    if OfWriter(a) {
      AcceptedOnceByWriter(s, a);
    } else if OfCloser(a) {
      CloserFrame(s, a);
    } else {
      FlusherFrame(s, a);
    }
  }

  // Close calls

  /** One call moves to `pc`, and does not fall behind what `p` asks for. */
  lemma AnyMove(closers: map<nat, CloserPc>, c: nat, pc: CloserPc, p: CloserPc -> bool)
    requires c in closers && p(closers[c]) ==> p(pc)
    ensures Any(closers[c := pc], p) <==> Any(closers, p) || p(pc)
  {
    var moved := closers[c := pc];
    if Any(closers, p) {
      var d :| d in closers && p(closers[d]);
      assert d in moved && p(moved[d]);
    }
    if p(pc) {
      assert c in moved && p(moved[c]);
    }
  }

  lemma AnyWinningAfter(s: State, a: Action)
    requires OfCloser(a) && Enabled(s, a)
    ensures Any(AfterCloser(s, a).closers, Winning) <==> Any(s.closers, Winning) || (a.Swap? && !s.closed)
  {
    AnyMove(s.closers, a.c, AfterCloser(s, a).closers[a.c], Winning);
    if !a.Swap? {
      assert a.c in s.closers && Winning(s.closers[a.c]);
    }
  }

  lemma AnyPastWritesAfter(s: State, a: Action)
    requires OfCloser(a) && Enabled(s, a)
    ensures Any(AfterCloser(s, a).closers, PastWrites) 
      <==> Any(s.closers, PastWrites) || a.PassWrites? || (a.Wake? && s.writes == 0)
  {
    AnyMove(s.closers, a.c, AfterCloser(s, a).closers[a.c], PastWrites);
    if a.SignalDone? || a.PassFlusher? || a.CloseTheStore? {
      assert a.c in s.closers && PastWrites(s.closers[a.c]);
    }
  }

  lemma AnySignalledAfter(s: State, a: Action)
    requires OfCloser(a) && Enabled(s, a)
    ensures Any(AfterCloser(s, a).closers, Signalled) <==> Any(s.closers, Signalled) || a.SignalDone?
  {
    AnyMove(s.closers, a.c, AfterCloser(s, a).closers[a.c], Signalled);
    if a.PassFlusher? || a.CloseTheStore? {
      assert a.c in s.closers && Signalled(s.closers[a.c]);
    }
  }

  lemma AnyWonAfter(s: State, a: Action)
    requires OfCloser(a) && Enabled(s, a)
    ensures Any(AfterCloser(s, a).closers, IsWon) <==> Any(s.closers, IsWon) || a.CloseTheStore?
  {
    AnyMove(s.closers, a.c, AfterCloser(s, a).closers[a.c], IsWon);
  }

  lemma OneWinnerByCloser(s: State, a: Action)
    requires OneWinner(s) && OfCloser(a) && Enabled(s, a)
    ensures OneWinner(AfterCloser(s, a))
  {
    AnyWinningAfter(s, a);
  }

  lemma KeepsOneWinner(s: State, a: Action)
    requires OneWinner(s) && Enabled(s, a)
    ensures OneWinner(After(s, a))
  {
    hide AfterWriter, AfterFlusher, AfterCloser, Enabled;
    if OfWriter(a) {
      WriterFrame(s, a);
    } else if OfCloser(a) {
      OneWinnerByCloser(s, a);
    } else {
      FlusherFrame(s, a);
    }
  }

  /** After the swap no Write call becomes admitted. */
  lemma NotAdmittedByWriter(s: State, a: Action)
    requires OfWriter(a) && Enabled(s, a) && s.closed
    requires forall w :: w in s.writers ==> s.writers[w] != Admitted
    ensures forall w :: w in AfterWriter(s, a).writers ==> AfterWriter(s, a).writers[w] != Admitted
  {
  }

  lemma SealedOffByCloser(s: State, a: Action)
    requires WritesCounted(s) && SealedOff(s) && OfCloser(a) && Enabled(s, a)
    ensures SealedOff(AfterCloser(s, a))
  {
    AnyPastWritesAfter(s, a);
    if a.PassWrites? || a.Wake? {
      assert forall w :: w in s.writers && s.writers[w] == Admitted ==> w in Registrations(s.writers);
    }
  }

  lemma SealedIsClosed(s: State)
    requires OneWinner(s) && Sealed(s)
    ensures s.closed
  {
    var c :| c in s.closers && PastWrites(s.closers[c]);
    assert Winning(s.closers[c]);
  }

  lemma KeepsSealedOff(s: State, a: Action)
    requires WritesCounted(s) && OneWinner(s) && SealedOff(s) && Enabled(s, a)
    ensures SealedOff(After(s, a))
  {
    hide AfterWriter, AfterFlusher, AfterCloser, Enabled, WritesCounted, OneWinner;
    if OfWriter(a) {
      WriterFrame(s, a);
      if Sealed(s) {
        SealedIsClosed(s);
        NotAdmittedByWriter(s, a);
      }
    } else if OfCloser(a) {
      SealedOffByCloser(s, a);
    } else {
      FlusherFrame(s, a);
    }
  }

  lemma DoneBySignalByCloser(s: State, a: Action)
    requires DoneBySignal(s) && OfCloser(a) && Enabled(s, a)
    ensures DoneBySignal(AfterCloser(s, a))
  {
    AnySignalledAfter(s, a);
  }

  lemma ExitedStays(s: State, a: Action)
    requires !OfWriter(a) && !OfCloser(a) && Enabled(s, a)
    ensures s.flusher != Exited
  {
  }

  lemma KeepsDoneBySignal(s: State, a: Action)
    requires DoneBySignal(s) && Enabled(s, a)
    ensures DoneBySignal(After(s, a))
  {
    hide AfterWriter, AfterFlusher, AfterCloser, Enabled;
    if OfWriter(a) {
      WriterFrame(s, a);
    } else if OfCloser(a) {
      DoneBySignalByCloser(s, a);
    } else {
      FlusherFrame(s, a);
      ExitedStays(s, a);
    }
  }

  lemma KeepsRefusedWhenClosed(s: State, a: Action)
    requires RefusedWhenClosed(s) && Enabled(s, a)
    ensures RefusedWhenClosed(After(s, a))
  {
    hide AfterFlusher, AfterCloser;
    if OfWriter(a) {
    } else if OfCloser(a) {
      CloserFrame(s, a);
    } else {
      FlusherFrame(s, a);
    }
  }

  lemma WaitsRightByWriter(s: State, a: Action)
    requires WritesCounted(s) && OneWinner(s) && WaitsRight(s) && OfWriter(a) && Enabled(s, a)
    ensures WaitsRight(AfterWriter(s, a))
  {
    WriterFrame(s, a);
    if AnyParked(s.closers) {
      var c :| c in s.closers && s.closers[c] == Parked;
      assert Winning(s.closers[c]);
      assert forall d :: d in s.closers && s.closers[d].WaitWrites? ==> Winning(s.closers[d]);
    }
  }

  lemma KeepsWaitsRight(s: State, a: Action)
    requires WritesCounted(s) && OneWinner(s) && WaitsRight(s) && Enabled(s, a)
    ensures WaitsRight(After(s, a))
  {
    hide AfterWriter, AfterFlusher, AfterCloser, Enabled, OneWinner, WritesCounted;
    if OfWriter(a) {
      WaitsRightByWriter(s, a);
    } else if OfCloser(a) {
      WaitsRightByCloser(s, a);
    } else {
      FlusherFrame(s, a);
    }
  }

  lemma WaitsRightByCloser(s: State, a: Action)
    requires WaitsRight(s) && OfCloser(a) && Enabled(s, a)
    ensures WaitsRight(AfterCloser(s, a))
  {
    CloserFrame(s, a);
  }

  // The goroutine and the store

  /** The signal is given only when the writers' wait is over, so draining sees no new entry. */
  lemma DrainedForGood(s: State, w: Call)
    requires SealedOff(s) && DoneBySignal(s) && s.done
    ensures !Enabled(s, Send(w))
  {
    var c :| c in s.closers && Signalled(s.closers[c]);
    assert PastWrites(s.closers[c]);
  }

  lemma FlusherPhasesByFlusher(s: State, a: Action)
    requires FlusherPhases(s) && !OfWriter(a) && !OfCloser(a) && Enabled(s, a)
    ensures FlusherPhases(AfterFlusher(s, a))
  {
  }

  lemma KeepsFlusherPhases(s: State, a: Action)
    requires SealedOff(s) && DoneBySignal(s) && FlusherPhases(s) && Enabled(s, a)
    ensures FlusherPhases(After(s, a))
  {
    hide AfterWriter, AfterFlusher, AfterCloser, Enabled, SealedOff, DoneBySignal;
    if OfWriter(a) {
      WriterFrame(s, a);
      if a.Send? && s.done {
        DrainedForGood(s, a.w);
      }
    } else if OfCloser(a) {
      CloserFrame(s, a);
    } else {
      FlusherPhasesByFlusher(s, a);
    }
  }

  lemma BatchesAt(ops: seq<StoreOp>, n: nat)
    requires n <= |ops| && forall i :: 0 <= i < n ==> IsBatch(ops[i])
    ensures BatchesThen(ops, ops[n..])
  {
  }

  lemma TailMore(ops: seq<StoreOp>, tail: seq<StoreOp>, op: StoreOp)
    requires BatchesThen(ops, tail)
    ensures BatchesThen(ops + [op], tail + [op])
    ensures tail == [] && IsBatch(op) ==> BatchesThen(ops + [op], [])
  {
    var n :| 0 <= n <= |ops| && ops[n..] == tail && forall i :: 0 <= i < n ==> IsBatch(ops[i]);
    hide BatchesThen, IsBatch;
    var more := ops + [op];
    assert more[n..] == tail + [op];
    BatchesAt(more, n);
    if tail == [] && IsBatch(op) {
      assert n == |ops|;
      BatchesAt(more, n + 1);
      assert more[n + 1..] == [];
    }
  }

  lemma WinnerClosesOnce(s: State, c: nat)
    requires OneWinner(s) && Enabled(s, CloseTheStore(c))
    ensures !HasWon(s)
  {
    if HasWon(s) {
      var d :| d in s.closers && s.closers[d].Won?;
      assert Winning(s.closers[c]) && Winning(s.closers[d]);
    }
  }

  lemma WonIsExited(s: State)
    requires DoneBySignal(s) && HasWon(s)
    ensures s.flusher == Exited
  {
  }

  lemma StoreCallsByFlusher(s: State, a: Action)
    requires DoneBySignal(s) && StoreCalls(s) && !OfWriter(a) && !OfCloser(a) && Enabled(s, a)
    ensures StoreCalls(AfterFlusher(s, a))
  {
    FlusherFrame(s, a);
    if HasWon(s) {
      WonIsExited(s);
    }
    hide BatchesThen, Any, DoneBySignal;
    match a
    case WriteOut => TailMore(s.store, [], WriteBatch(s.batch));
    case WriteRest => TailMore(s.store, [], WriteBatch(s.batch));
    case FlushStore =>
      TailMore(s.store, [], Flush);
      assert [] + [Flush] == StoreTail(true, false);
    case _ =>
  }

  lemma StoreCallsByCloser(s: State, a: Action)
    requires OneWinner(s) && StoreCalls(s) && OfCloser(a) && Enabled(s, a)
    ensures StoreCalls(AfterCloser(s, a))
  {
    CloserFrame(s, a);
    AnyWonAfter(s, a);
    if a.CloseTheStore? {
      WinnerClosesOnce(s, a.c);
      TailMore(s.store, StoreTail(HasFlushed(s), false), Close);
      assert StoreTail(HasFlushed(s), false) + [Close] == StoreTail(HasFlushed(s), true);
    } else {
      assert s.store + [] == s.store;
    }
  }

  lemma KeepsStoreCalls(s: State, a: Action)
    requires OneWinner(s) && DoneBySignal(s) && StoreCalls(s) && Enabled(s, a)
    ensures StoreCalls(After(s, a))
  {
    hide AfterWriter, AfterFlusher, AfterCloser, Enabled, OneWinner, DoneBySignal, BatchesThen;
    if OfWriter(a) {
      WriterFrame(s, a);
    } else if OfCloser(a) {
      StoreCallsByCloser(s, a);
    } else {
      StoreCallsByFlusher(s, a);
    }
  }

  /** The invariant holds of a new logger and survives every action of every goroutine. */
  lemma FreshInv(bufferSize: int)
    ensures Inv(Fresh(bufferSize))
  {
    assert Fresh(bufferSize).store[0..] == [];
  }

  lemma KeepsInv(s: State, a: Action)
    requires Inv(s) && Enabled(s, a)
    ensures Inv(After(s, a))
  {
    hide After, WritesCounted, FlowsInOrder, AcceptedOnce, OneWinner, SealedOff, DoneBySignal,
         RefusedWhenClosed, FlusherPhases, StoreCalls, WaitsRight;
    KeepsWritesCounted(s, a);
    KeepsFlowsInOrder(s, a);
    KeepsAcceptedOnce(s, a);
    KeepsOneWinner(s, a);
    KeepsSealedOff(s, a);
    KeepsDoneBySignal(s, a);
    KeepsRefusedWhenClosed(s, a);
    KeepsFlusherPhases(s, a);
    KeepsStoreCalls(s, a);
    KeepsWaitsRight(s, a);
  }

  lemma {:induction false} RunKeepsInv(s: State, actions: seq<Action>, t: State)
    requires Inv(s) && Run(s, actions, t)
    ensures Inv(t)
    decreases |actions|
  {
    if actions != [] {
      hide Inv, Enabled, After;
      KeepsInv(s, actions[0]);
      RunKeepsInv(After(s, actions[0]), actions[1..], t);
    }
  }

  // Main results

  /** When the winning Close returns, the WriteBatch arguments are together exactly the
      accepted entries in the order of their sends, each once, none of them left behind,
      and they all precede the one Flush and the one Close of the store. */
  lemma CloseFlushesEverything(bufferSize: int, actions: seq<Action>, t: State)
    requires Run(Fresh(bufferSize), actions, t) && HasWon(t)
    ensures Written(t.store) == t.accepted && t.buffer == [] && t.batch == []
    ensures forall i, j :: 0 <= i < j < |t.accepted| ==> t.accepted[i] != t.accepted[j]
    ensures forall w :: w in Written(t.store) <==> w in t.writers && IsAccepted(t.writers[w])
    ensures BatchesThen(t.store, [Flush, Close])
  {
    hide Run, Written, Fresh;
    FreshInv(bufferSize);
    RunKeepsInv(Fresh(bufferSize), actions, t);
    WonIsExited(t);
    assert Written(t.store) + [] + [] == Written(t.store);
  }

  /** At every moment, what has been written is the oldest part of what has been accepted. */
  lemma WrittenIsOldest(bufferSize: int, actions: seq<Action>, t: State)
    requires Run(Fresh(bufferSize), actions, t)
    ensures t.accepted == Written(t.store) + (t.batch + t.buffer)
  {
    hide Run, Written;
    FreshInv(bufferSize);
    RunKeepsInv(Fresh(bufferSize), actions, t);
    assert Written(t.store) + t.batch + t.buffer == Written(t.store) + (t.batch + t.buffer);
  }

  lemma AcceptedGrowsOnce(s: State, a: Action)
    requires Enabled(s, a)
    ensures s.accepted <= After(s, a).accepted
  {
    hide AfterFlusher, AfterCloser;
    if OfWriter(a) {
    } else if OfCloser(a) {
      CloserFrame(s, a);
    } else {
      FlusherFrame(s, a);
    }
  }

  lemma {:induction false} AcceptedGrows(s: State, actions: seq<Action>, t: State)
    requires Run(s, actions, t)
    ensures s.accepted <= t.accepted
    decreases |actions|
  {
    if actions != [] {
      AcceptedGrowsOnce(s, actions[0]);
      hide Enabled, After;
      AcceptedGrows(After(s, actions[0]), actions[1..], t);
    }
  }

  /** A Write that was accepted before another began is written before it. */
  lemma EarlierWriteFirst(s: State, actions: seq<Action>, t: State, v: Call, w: Call)
    requires Inv(s) && Run(s, actions, t)
    requires v in s.writers && IsAccepted(s.writers[v]) && w !in s.writers
    requires w in t.accepted
    ensures exists i, j :: 0 <= i < j < |t.accepted| && t.accepted[i] == v && t.accepted[j] == w
  {
    hide Run;
    AcceptedGrows(s, actions, t);
    assert v in s.accepted && w !in s.accepted;
    var i :| 0 <= i < |s.accepted| && s.accepted[i] == v;
    var j :| 0 <= j < |t.accepted| && t.accepted[j] == w;
    assert t.accepted[i] == v && j >= |s.accepted|;
  }

  lemma SealedStays(s: State, a: Action)
    requires SealedOff(s) && Sealed(s) && Enabled(s, a)
    ensures Sealed(After(s, a)) && After(s, a).accepted == s.accepted
  {
    hide AfterWriter, AfterFlusher, AfterCloser;
    if OfWriter(a) {
      WriterFrame(s, a);
    } else if OfCloser(a) {
      CloserFrame(s, a);
      AnyPastWritesAfter(s, a);
    } else {
      FlusherFrame(s, a);
    }
  }

  /** Nothing is accepted once a Close call has finished waiting for the writers. */
  lemma {:induction false} NothingAcceptedAfterWait(s: State, actions: seq<Action>, t: State)
    requires Inv(s) && Sealed(s) && Run(s, actions, t)
    ensures t.accepted == s.accepted
    decreases |actions|
  {
    if actions != [] {
      SealedStays(s, actions[0]);
      hide Inv, Enabled, After, Sealed;
      KeepsInv(s, actions[0]);
      NothingAcceptedAfterWait(After(s, actions[0]), actions[1..], t);
    }
  }

  // What becomes of a Write call

  predicate Decided(s: State, w: Call) { w in s.writers && (s.writers[w].Leaving? || s.writers[w].Returned?) }

  /** The action decides the call's outcome: a send is accepted when the buffer has room and
      dropped when it is full; a call is refused only when it finds the logger closed. */
  predicate Decides(s: State, a: Action, w: Call, o: Outcome) {
    match o
    case Accepted => a == Send(w) && |s.buffer| < s.capacity
    case Dropped => a == Send(w) && |s.buffer| == s.capacity
    case Refused => (a == Begin(w) || a == Recheck(w)) && s.closed
  }

  lemma DecidedStays(s: State, a: Action, w: Call)
    requires Enabled(s, a) && Decided(s, w)
    ensures Decided(After(s, a), w) && After(s, a).writers[w].o == s.writers[w].o
  {
    hide AfterFlusher, AfterCloser;
    if OfCloser(a) {
      CloserFrame(s, a);
    } else if !OfWriter(a) {
      FlusherFrame(s, a);
    }
  }

  /** An outcome is final. */
  lemma {:induction false} OutcomeStays(s: State, actions: seq<Action>, t: State, w: Call)
    requires Run(s, actions, t) && Decided(s, w)
    ensures Decided(t, w) && t.writers[w].o == s.writers[w].o
    decreases |actions|
  {
    if actions != [] {
      DecidedStays(s, actions[0], w);
      hide Enabled, After, Decided;
      OutcomeStays(After(s, actions[0]), actions[1..], t, w);
    }
  }

  lemma NewlyDecided(s: State, a: Action, w: Call)
    requires FlowsInOrder(s) && Enabled(s, a) && !Decided(s, w) && Decided(After(s, a), w)
    ensures Decides(s, a, w, After(s, a).writers[w].o)
  {
    hide AfterFlusher, AfterCloser;
    if OfCloser(a) {
      CloserFrame(s, a);
    } else if !OfWriter(a) {
      FlusherFrame(s, a);
    }
  }

  /** Every outcome was decided at one action of the run, in the state it met. */
  lemma {:induction false} OutcomeDecided(s: State, actions: seq<Action>, t: State, w: Call) returns (i: nat, u: State)
    requires Inv(s) && Run(s, actions, t) && !Decided(s, w) && Decided(t, w)
    ensures i < |actions| && Run(s, actions[..i], u) && Decides(u, actions[i], w, t.writers[w].o)
    decreases |actions|
  {
    hide Inv, Enabled, After, Decided, Decides;
    var a := actions[0];
    var s1 := After(s, a);
    KeepsInv(s, a);
    if Decided(s1, w) {
      OutcomeStays(s1, actions[1..], t, w);
      i, u := 0, s;
      InvFlows(s);
      NewlyDecided(s, a, w);
    } else {
      i, u := OutcomeDecided(s1, actions[1..], t, w);
      var longer := actions[..i + 1];
      assert longer[1..] == actions[1..][..i];
      i := i + 1;
    }
  }

  lemma InvFlows(s: State)
    requires Inv(s)
    ensures FlowsInOrder(s) && AcceptedOnce(s)
  {
  }

  lemma {:induction false} DistinctFit(calls: seq<Call>, all: set<Call>)
    requires forall c :: c in calls ==> c in all
    requires forall i, j :: 0 <= i < j < |calls| ==> calls[i] != calls[j]
    ensures |calls| <= |all|
    decreases |calls|
  {
    if calls != [] {
      var last, front := calls[|calls| - 1], calls[..|calls| - 1];
      forall c | c in front ensures c in all - {last} {
        var i :| 0 <= i < |front| && front[i] == c;
      }
      DistinctFit(front, all - {last});
    }
  }

  /** A full buffer and a call at its send: more calls have begun than the buffer holds. */
  lemma FullBufferCalls(s: State, w: Call)
    requires FlowsInOrder(s) && AcceptedOnce(s) && WriterAt(s, w, Admitted) && |s.buffer| == s.capacity
    ensures |s.writers.Keys| > s.capacity
  {
    hide Written;
    var n := |s.accepted| - |s.buffer|;
    assert s.accepted[n..] == s.buffer by {
      assert |Written(s.store) + s.batch| == n;
    }
    assert w !in s.accepted;
    forall c | c in s.buffer ensures c in s.writers.Keys - {w} {
      assert c in s.accepted[n..];
    }
    DistinctFit(s.buffer, s.writers.Keys - {w});
  }

  lemma {:induction false} CallsGrow(s: State, actions: seq<Action>, t: State)
    requires Run(s, actions, t)
    ensures s.writers.Keys <= t.writers.Keys && t.capacity == s.capacity
    decreases |actions|
  {
    if actions != [] {
      hide AfterWriter, AfterFlusher, AfterCloser, Enabled;
      if OfWriter(actions[0]) {
        WriterFrame(s, actions[0]);
      } else if OfCloser(actions[0]) {
        CloserFrame(s, actions[0]);
      } else {
        FlusherFrame(s, actions[0]);
      }
      CallsGrow(After(s, actions[0]), actions[1..], t);
    }
  }

  lemma RunHead(s: State, actions: seq<Action>, t: State)
    requires Run(s, actions, t) && actions != []
    ensures Enabled(s, actions[0]) && Run(After(s, actions[0]), actions[1..], t)
  {
    hide Enabled, After;
  }

  lemma TailSlices(actions: seq<Action>, i: nat)
    requires 0 < i <= |actions|
    ensures actions[..i][0] == actions[0] && actions[..i][1..] == actions[1..][..i - 1]
    ensures actions[1..][i - 1..] == actions[i..]
  {
  }

  lemma {:induction false} RunSplits(s: State, actions: seq<Action>, t: State, i: nat, u: State)
    requires Run(s, actions, t) && i <= |actions| && Run(s, actions[..i], u)
    ensures Run(u, actions[i..], t)
    decreases i
  {
    if i == 0 {
      hide Enabled, After;
      assert actions[0..] == actions;
    } else {
      hide Enabled, After, Run;
      var rest := actions[1..];
      RunHead(s, actions, t);
      RunHead(s, actions[..i], u);
      TailSlices(actions, i);
      RunSplits(After(s, actions[0]), rest, t, i - 1, u);
    }
  }

  /** No entry is dropped while no more Write calls have begun than the buffer has places, which
      are 1000 when none are configured. */
  lemma NothingDroppedInVain(bufferSize: int, actions: seq<Action>, t: State, w: Call)
    requires Run(Fresh(bufferSize), actions, t) && |t.writers.Keys| <= if bufferSize <= 0 then 1000 else bufferSize
    ensures Decided(t, w) ==> t.writers[w].o != Dropped
  {
    if Decided(t, w) && t.writers[w].o == Dropped {
      FreshInv(bufferSize);
      hide Run, Inv;
      var i, u := OutcomeDecided(Fresh(bufferSize), actions, t, w);
      RunSplits(Fresh(bufferSize), actions, t, i, u);
      RunKeepsInv(Fresh(bufferSize), actions[..i], u);
      InvFlows(u);
      CallsGrow(Fresh(bufferSize), actions[..i], u);
      CallsGrow(u, actions[i..], t);
      SendIsAdmitted(u, actions[i..], t, w);
      FullBufferCalls(u, w);
      MoreKeys(u.writers.Keys, t.writers.Keys);
    }
  }

  lemma SendIsAdmitted(s: State, actions: seq<Action>, t: State, w: Call)
    requires Run(s, actions, t) && actions != [] && actions[0] == Send(w)
    ensures WriterAt(s, w, Admitted)
  {
  }

  lemma {:induction false} MoreKeys(a: set<Call>, b: set<Call>)
    requires a <= b
    ensures |a| <= |b|
  {
    assert b == a + (b - a);
  }

  /** A logger that is not closed refuses nothing. */
  lemma NothingRefusedWhileOpen(bufferSize: int, actions: seq<Action>, t: State, w: Call)
    requires Run(Fresh(bufferSize), actions, t) && !t.closed
    ensures Decided(t, w) ==> t.writers[w].o != Refused
  {
    hide Run;
    FreshInv(bufferSize);
    RunKeepsInv(Fresh(bufferSize), actions, t);
  }

  // The sizes of batches

  /** While the logger is open, batches have at most 100 entries, and exactly 100 as long as the
      ticker has not fired. */
  ghost predicate BatchSizes(s: State, ticked: bool) {
    && (s.flusher == Selecting || s.flusher == Flushing)
    && (s.flusher == Selecting ==> |s.batch| < 100)
    && (s.flusher == Flushing ==> (if ticked then 0 < |s.batch| <= 100 else |s.batch| == 100))
    && forall op :: op in s.store ==>
         op.WriteBatch? && (if ticked then 0 < |op.entries| <= 100 else |op.entries| == 100)
  }

  lemma KeepsBatchSizes(s: State, a: Action, ticked: bool)
    requires BatchSizes(s, ticked) && DoneBySignal(s) && Enabled(s, a) && !After(s, a).done && (a.Tick? ==> ticked)
    ensures BatchSizes(After(s, a), ticked)
  {
    hide AfterWriter, AfterCloser;
    if OfWriter(a) {
      WriterFrame(s, a);
    } else if OfCloser(a) {
      CloserFrame(s, a);
      assert a.CloseTheStore? ==> a.c in s.closers && Signalled(s.closers[a.c]);
      assert s.store + [] == s.store;
    }
  }

  lemma {:induction false} BatchSizesKept(s: State, actions: seq<Action>, t: State, ticked: bool)
    requires Inv(s) && BatchSizes(s, ticked) && Run(s, actions, t) && !t.done
    requires ticked || forall a :: a in actions ==> !a.Tick?
    ensures BatchSizes(t, ticked)
    decreases |actions|
  {
    if actions != [] {
      hide Enabled, After, BatchSizes, DoneBySignal;
      var s1 := After(s, actions[0]);
      KeepsInv(s, actions[0]);
      DoneStays(s1, actions[1..], t);
      KeepsBatchSizes(s, actions[0], ticked);
      assert actions[0] in actions && forall a :: a in actions[1..] ==> a in actions;
      hide Inv;
      BatchSizesKept(s1, actions[1..], t, ticked);
    }
  }

  lemma {:induction false} DoneStays(s: State, actions: seq<Action>, t: State)
    requires Run(s, actions, t) && !t.done
    ensures !s.done
    decreases |actions|
  {
    if actions != [] {
      hide AfterWriter, AfterFlusher, AfterCloser, Enabled;
      if OfWriter(actions[0]) {
        WriterFrame(s, actions[0]);
      } else if OfCloser(actions[0]) {
        CloserFrame(s, actions[0]);
      } else {
        FlusherFrame(s, actions[0]);
      }
      DoneStays(After(s, actions[0]), actions[1..], t);
    }
  }

  /** Until the signal, the store is given batches of at most 100 entries, and without ticks of
      exactly 100. */
  lemma BatchesOfHundred(bufferSize: int, actions: seq<Action>, t: State)
    requires Run(Fresh(bufferSize), actions, t) && !t.done
    ensures forall op :: op in t.store ==> op.WriteBatch? && 0 < |op.entries| <= 100
    ensures (forall a :: a in actions ==> !a.Tick?) ==> forall op :: op in t.store ==> |op.entries| == 100
  {
    FreshInv(bufferSize);
    BatchSizesKept(Fresh(bufferSize), actions, t, true);
    if forall a :: a in actions ==> !a.Tick? {
      BatchSizesKept(Fresh(bufferSize), actions, t, false);
    }
  }

  /** A tick gets everything taken so far written by the goroutine's next action. */
  lemma TickWritesAll(s: State)
    requires s.flusher == Selecting && s.batch != []
    ensures Enabled(s, Tick) && Enabled(After(s, Tick), WriteOut)
    ensures var t := After(After(s, Tick), WriteOut);
      t.flusher == Selecting && t.batch == [] && Written(t.store) == Written(s.store) + s.batch && t.buffer == s.buffer
  {
    WrittenMore(s.store, WriteBatch(s.batch));
    hide Written;
  }

  // Close always finishes

  /** Actions still ahead of a Write call that has begun. */
  function Remaining(pc: WriterPc): nat {
    match pc
    case Checked => 4
    case Registered => 3
    case Admitted => 2
    case Leaving(_) => 1
    case Returned(_) => 0
  }

  function WithRemaining(writers: map<Call, WriterPc>, k: nat): set<Call> {
    set w | w in writers && Remaining(writers[w]) == k
  }

  function WriterWork(writers: map<Call, WriterPc>): nat {
    4 * |WithRemaining(writers, 4)| + 3 * |WithRemaining(writers, 3)| + 2 * |WithRemaining(writers, 2)|
    + |WithRemaining(writers, 1)|
  }

  function FlusherRank(pc: FlusherPc): nat {
    match pc
    case Selecting => 6
    case Flushing => 5
    case Draining => 4
    case FinalFlush => 3
    case StoreFlush => 2
    case Exiting => 1
    case Exited => 0
  }

  function CloserRank(pc: CloserPc): nat {
    match pc
    case WaitWrites => 5
    case Parked => 4
    case Signal => 3
    case WaitFlusher => 2
    case CloseStore => 1
    case _ => 0
  }

  /** Work left before Close call `c`, the winner, returns. */
  function Work(s: State, c: nat): nat
    requires c in s.closers
  {
    5 * WriterWork(s.writers) + 4 * |s.buffer| + 2 * |s.batch| + FlusherRank(s.flusher) + CloserRank(s.closers[c])
  }

  /** Actions that do no work once the logger is closed: calls that return at once, and ticks
      with nothing to write. */
  predicate Idle(s: State, a: Action) {
    a.Begin? || a.Swap? || (a.Tick? && s.batch == [])
  }

  lemma RemainingMove(writers: map<Call, WriterPc>, w: Call, pc: WriterPc, k: nat)
    ensures |WithRemaining(writers[w := pc], k)|
      == |WithRemaining(writers, k)| - (if w in writers && Remaining(writers[w]) == k then 1 else 0)
         + (if Remaining(pc) == k then 1 else 0)
  {
    var before := WithRemaining(writers, k);
    assert WithRemaining(writers[w := pc], k) == if Remaining(pc) == k then (before - {w}) + {w} else before - {w};
  }

  lemma WorkMove(writers: map<Call, WriterPc>, w: Call, pc: WriterPc)
    ensures WriterWork(writers[w := pc])
      == WriterWork(writers) - (if w in writers then Remaining(writers[w]) else 0) + Remaining(pc)
  {
    RemainingMove(writers, w, pc, 4);
    RemainingMove(writers, w, pc, 3);
    RemainingMove(writers, w, pc, 2);
    RemainingMove(writers, w, pc, 1);
  }

  lemma WinnerMoves(s: State, a: Action, c: nat)
    requires OneWinner(s) && OfCloser(a) && Enabled(s, a) && c in s.closers && Winning(s.closers[c])
    ensures var t := AfterCloser(s, a);
      && c in t.closers && Winning(t.closers[c])
      && (if a.Swap? then t.closers[c] == s.closers[c] else CloserRank(t.closers[c]) < CloserRank(s.closers[c]))
  {
    if !a.Swap? {
      assert Winning(s.closers[a.c]);
    }
  }

  /** The winner only moves forward, and the logger stays closed. */
  lemma WinnerStays(s: State, a: Action, c: nat)
    requires OneWinner(s) && Enabled(s, a) && c in s.closers && Winning(s.closers[c])
    ensures var t := After(s, a); s.closed && t.closed && c in t.closers && Winning(t.closers[c])
  {
    assert s.closed by {
      assert Winning(s.closers[c]);
    }
    hide AfterWriter, AfterFlusher, AfterCloser, Enabled;
    if OfWriter(a) {
      WriterFrame(s, a);
    } else if OfCloser(a) {
      CloserFrame(s, a);
      WinnerMoves(s, a, c);
    } else {
      FlusherFrame(s, a);
    }
  }

  lemma WorkShrinksByWriter(s: State, a: Action, c: nat)
    requires OfWriter(a) && Enabled(s, a) && s.closed && c in s.closers
    ensures var t := AfterWriter(s, a);
      c in t.closers && (if a.Begin? then Work(t, c) <= Work(s, c) else Work(t, c) < Work(s, c))
  {
    hide WriterWork;
    WorkMove(s.writers, a.w, AfterWriter(s, a).writers[a.w]);
  }

  lemma WorkShrinksByFlusher(s: State, a: Action, c: nat)
    requires FlusherPhases(s) && !OfWriter(a) && !OfCloser(a) && Enabled(s, a) && c in s.closers
    ensures var t := AfterFlusher(s, a);
      c in t.closers && (if Idle(s, a) then Work(t, c) <= Work(s, c) else Work(t, c) < Work(s, c))
  {
    hide WriterWork;
  }

  lemma WorkShrinksByCloser(s: State, a: Action, c: nat)
    requires OneWinner(s) && OfCloser(a) && Enabled(s, a) && c in s.closers && Winning(s.closers[c])
    ensures var t := AfterCloser(s, a);
      c in t.closers && (if a.Swap? then Work(t, c) <= Work(s, c) else Work(t, c) < Work(s, c))
  {
    CloserFrame(s, a);
    WinnerMoves(s, a, c);
    hide WriterWork, AfterCloser, OneWinner;
  }

  /** After the swap every action that is not idle brings the winner's return closer, and no
      action puts it off. */
  lemma WorkShrinks(s: State, a: Action, c: nat)
    requires OneWinner(s) && FlusherPhases(s) && Enabled(s, a) && c in s.closers && Winning(s.closers[c])
    ensures var t := After(s, a);
      && c in t.closers && Winning(t.closers[c]) && t.closed
      && (if Idle(s, a) then Work(t, c) <= Work(s, c) else Work(t, c) < Work(s, c))
  {
    WinnerStays(s, a, c);
    hide AfterWriter, AfterFlusher, AfterCloser, Enabled, Work, OneWinner, FlusherPhases;
    if OfWriter(a) {
      WorkShrinksByWriter(s, a, c);
    } else if OfCloser(a) {
      WorkShrinksByCloser(s, a, c);
    } else {
      WorkShrinksByFlusher(s, a, c);
    }
  }

  lemma InFlightEnabled(s: State) returns (a: Action)
    requires WritesCounted(s) && s.writes != 0
    ensures Enabled(s, a) && !Idle(s, a) && OfWriter(a) && a.w in s.writers && InFlight(s.writers[a.w])
  {
    var w :| w in Registrations(s.writers);
    a := if s.writers[w].Registered? then Recheck(w) else if s.writers[w].Admitted? then Send(w) else Finish(w);
  }

  lemma FlusherEnabled(s: State) returns (a: Action)
    requires s.done && s.flusher != Exited
    ensures Enabled(s, a) && !Idle(s, a) && !OfCloser(a)
  {
    match s.flusher
    case Selecting => a := SeeDone;
    case Flushing => a := WriteOut;
    case Draining => a := if s.buffer == [] then DrainEmpty else DrainOne;
    case FinalFlush => a := WriteRest;
    case StoreFlush => a := FlushStore;
    case Exiting => a := Exit;
  }

  /** Until the winner returns, some goroutine can always do work. */
  lemma WorkEnabled(s: State, c: nat) returns (a: Action)
    requires WritesCounted(s) && DoneBySignal(s) && WaitsRight(s)
    requires c in s.closers && Winning(s.closers[c]) && !s.closers[c].Won? && !s.closers[c].Panicked?
    ensures Enabled(s, a) && !Idle(s, a) && (a.Wake? ==> s.writes == 0)
  {
    match s.closers[c]
    case WaitWrites =>
      a := if s.writes == 0 then PassWrites(c) else Park(c);
    case Parked =>
      if s.writes == 0 {
        a := Wake(c);
      } else {
        a := InFlightEnabled(s);
      }
    case Signal => a := SignalDone(c);
    case WaitFlusher =>
      assert Signalled(s.closers[c]);
      if s.flusher == Exited {
        a := PassFlusher(c);
      } else {
        a := FlusherEnabled(s);
      }
    case CloseStore => a := CloseTheStore(c);
  }

  /** How many actions of a run are not idle. */
  function WorkingSteps(s: State, actions: seq<Action>): nat
    decreases |actions|
  {
    if actions == [] || !Enabled(s, actions[0]) then 0
    else (if Idle(s, actions[0]) then 0 else 1) + WorkingSteps(After(s, actions[0]), actions[1..])
  }

  /** However writers and other Close calls interleave, only a bounded number of working
      actions can happen before the winning Close call returns. */
  lemma {:induction false} CloseIsBounded(s: State, actions: seq<Action>, t: State, c: nat)
    requires Inv(s) && c in s.closers && Winning(s.closers[c]) && Run(s, actions, t)
    ensures c in t.closers && WorkingSteps(s, actions) + Work(t, c) <= Work(s, c)
    decreases |actions|
  {
    if actions != [] {
      hide Inv, Enabled, After, Work, Idle;
      KeepsInv(s, actions[0]);
      WorkShrinks(s, actions[0], c);
      CloseIsBounded(After(s, actions[0]), actions[1..], t, c);
    }
  }

  lemma PanicsByWake(s: State, a: Action, c: nat)
    requires Enabled(s, a) && c in s.closers && !s.closers[c].Panicked?
    ensures c in After(s, a).closers && (After(s, a).closers[c].Panicked? ==> a.Wake? && s.writes != 0)
  {
    hide AfterWriter, AfterFlusher;
    if OfWriter(a) {
      WriterFrame(s, a);
    } else if !OfCloser(a) {
      FlusherFrame(s, a);
    }
  }

  /** Close never deadlocks: from every state in which it is under way it can return, unless
      its Wait has panicked. */
  lemma {:induction false} CloseCanReturn(s: State, c: nat) returns (actions: seq<Action>, t: State)
    requires Inv(s) && c in s.closers && Winning(s.closers[c]) && !s.closers[c].Panicked?
    ensures Run(s, actions, t) && CloserAt(t, c, Won)
    decreases Work(s, c)
  {
    if s.closers[c].Won? {
      actions, t := [], s;
    } else {
      hide Inv, Enabled, After, Work, Idle;
      var a := WorkEnabled(s, c);
      WorkShrinks(s, a, c);
      KeepsInv(s, a);
      PanicsByWake(s, a, c);
      var rest;
      rest, t := CloseCanReturn(After(s, a), c);
      actions := [a] + rest;
      assert actions[1..] == rest;
    }
  }

  // When Wait panics

  predicate Unregistered(s: State, w: Call) { w in s.writers && s.writers[w].Checked? }

  predicate UnderWay(s: State, w: Call) { w in s.writers && (s.writers[w].Checked? || InFlight(s.writers[w])) }

  /** The wait group of Close call `c` may yet be reused while its Wait is being released. */
  ghost predicate AtRisk(s: State, c: nat)
    requires c in s.closers
  {
    match s.closers[c]
    case WaitWrites => exists v, w :: v != w && Unregistered(s, v) && UnderWay(s, w)
    case Parked => (exists v :: Unregistered(s, v)) || (s.released && s.writes != 0)
    case Panicked => true
    case _ => false
  }

  lemma RiskStaysAway(s: State, a: Action, c: nat)
    requires Inv(s) && Enabled(s, a) && c in s.closers && Winning(s.closers[c]) && !AtRisk(s, c)
    ensures c in After(s, a).closers && Winning(After(s, a).closers[c]) && !AtRisk(After(s, a), c)
  {
    WinnerStays(s, a, c);
    assert WritesCounted(s) && WaitsRight(s) && OneWinner(s);
    hide Inv, WritesCounted, OneWinner;
    if OfWriter(a) {
      RiskByWriter(s, a, c);
    } else if OfCloser(a) {
      RiskByCloser(s, a, c);
    } else {
      hide AfterFlusher;
      FlusherFrame(s, a);
      var t := After(s, a);
      assert forall w :: Unregistered(t, w) == Unregistered(s, w) && UnderWay(t, w) == UnderWay(s, w);
    }
  }

  lemma RiskByWriter(s: State, a: Action, c: nat)
    requires WritesCounted(s) && WaitsRight(s) && OfWriter(a) && Enabled(s, a) && s.closed
    requires c in s.closers && !AtRisk(s, c)
    ensures !AtRisk(AfterWriter(s, a), c)
  {
    var t := AfterWriter(s, a);
    assert forall w :: Unregistered(t, w) ==> Unregistered(s, w);
    assert forall w :: UnderWay(t, w) ==> UnderWay(s, w);
    if a.Finish? {
      InFlightCounts(s, a.w);
    } else if a.Register? {
      assert Unregistered(s, a.w);
    }
    hide WritesCounted;
  }

  lemma RiskByCloser(s: State, a: Action, c: nat)
    requires WritesCounted(s) && WaitsRight(s) && OneWinner(s) && OfCloser(a) && Enabled(s, a)
    requires c in s.closers && Winning(s.closers[c]) && !AtRisk(s, c)
    ensures !AtRisk(AfterCloser(s, a), c)
  {
    var t := AfterCloser(s, a);
    assert forall w :: Unregistered(t, w) == Unregistered(s, w) && UnderWay(t, w) == UnderWay(s, w);
    if a.Park? && a.c == c {
      SomeoneInFlight(s);
      var w :| w in s.writers && InFlight(s.writers[w]);
      assert UnderWay(s, w) && forall v :: Unregistered(s, v) ==> v != w;
    }
  }

  lemma SomeoneInFlight(s: State)
    requires WritesCounted(s) && s.writes != 0
    ensures exists w :: w in s.writers && InFlight(s.writers[w])
  {
    var w :| w in Registrations(s.writers);
  }

  lemma {:induction false} NoRiskNoPanic(s: State, actions: seq<Action>, t: State, c: nat)
    requires Inv(s) && Run(s, actions, t) && c in s.closers && Winning(s.closers[c]) && !AtRisk(s, c)
    ensures !CloserAt(t, c, Panicked)
    decreases |actions|
  {
    if actions != [] {
      hide Inv, Enabled, After, AtRisk;
      KeepsInv(s, actions[0]);
      RiskStaysAway(s, actions[0], c);
      NoRiskNoPanic(After(s, actions[0]), actions[1..], t, c);
    }
  }

  lemma RiskBeforeWait(s: State, c: nat) returns (a: Action)
    requires WritesCounted(s) && CloserAt(s, c, WaitWrites) && AtRisk(s, c)
    ensures Enabled(s, a) && !Idle(s, a) && c in After(s, a).closers && AtRisk(After(s, a), c)
  {
    var v, w :| v != w && Unregistered(s, v) && UnderWay(s, w);
    if s.writes != 0 {
      a := Park(c);
      assert Unregistered(After(s, a), v);
    } else {
      if InFlight(s.writers[w]) {
        InFlightCounts(s, w);
      }
      a := Register(w);
      assert Unregistered(After(s, a), v) && UnderWay(After(s, a), w);
    }
  }

  lemma RiskInWait(s: State, c: nat) returns (a: Action)
    requires WritesCounted(s) && WaitsRight(s) && CloserAt(s, c, Parked) && AtRisk(s, c)
    ensures Enabled(s, a) && !Idle(s, a) && c in After(s, a).closers && AtRisk(After(s, a), c)
  {
    if s.released && s.writes != 0 {
      a := Wake(c);
    } else {
      var v :| Unregistered(s, v);
      if s.released {
        a := Register(v);
      } else {
        a := InFlightEnabled(s);
        hide WritesCounted, WaitsRight, AfterFlusher;
        WriterFrame(s, a);
        assert Unregistered(After(s, a), v);
      }
    }
  }

  /** While the risk lasts, some working action keeps it or ends in the panic. */
  lemma RiskStep(s: State, c: nat) returns (a: Action)
    requires WritesCounted(s) && WaitsRight(s) && c in s.closers && AtRisk(s, c) && !s.closers[c].Panicked?
    ensures Enabled(s, a) && !Idle(s, a) && c in After(s, a).closers && AtRisk(After(s, a), c)
  {
    hide WritesCounted, WaitsRight, Enabled, After, Idle;
    if s.closers[c].WaitWrites? {
      a := RiskBeforeWait(s, c);
    } else {
      a := RiskInWait(s, c);
    }
  }

  lemma InFlightCounts(s: State, w: Call)
    requires WritesCounted(s) && w in s.writers && InFlight(s.writers[w])
    ensures s.writes != 0
  {
    assert w in Registrations(s.writers);
  }

  lemma {:induction false} RiskCanPanic(s: State, c: nat) returns (actions: seq<Action>, t: State)
    requires Inv(s) && c in s.closers && AtRisk(s, c)
    ensures Run(s, actions, t) && CloserAt(t, c, Panicked)
    decreases if c in s.closers then Work(s, c) else 0
  {
    if s.closers[c].Panicked? {
      actions, t := [], s;
    } else {
      assert OneWinner(s) && FlusherPhases(s) && WritesCounted(s) && WaitsRight(s) && Winning(s.closers[c]);
      var a := RiskStep(s, c);
      hide Inv, Enabled, After, Work, Idle, AtRisk, OneWinner, FlusherPhases, WritesCounted, WaitsRight;
      WorkShrinks(s, a, c);
      KeepsInv(s, a);
      var rest;
      rest, t := RiskCanPanic(After(s, a), c);
      actions := [a] + rest;
      assert actions[1..] == rest;
    }
  }

  /** The Wait of a Close call that has just swapped can panic exactly when at least two Write
      calls are then between their first load and their Done, one of them not yet registered. */
  lemma WaitPanicsExactly(s: State, c: nat)
    requires Inv(s) && CloserAt(s, c, WaitWrites)
    ensures (exists actions, t :: Run(s, actions, t) && CloserAt(t, c, Panicked))
      <==> exists v, w :: v != w && Unregistered(s, v) && UnderWay(s, w)
  {
    hide Inv, Run;
    if AtRisk(s, c) {
      var actions, t := RiskCanPanic(s, c);
    } else {
      forall actions, t | Run(s, actions, t) ensures !CloserAt(t, c, Panicked) {
        NoRiskNoPanic(s, actions, t, c);
      }
    }
  }

  lemma {:induction false} RunThen(s: State, actions: seq<Action>, t: State, a: Action)
    returns (more: seq<Action>, u: State)
    requires Run(s, actions, t) && Enabled(t, a)
    ensures more == actions + [a] && u == After(t, a) && Run(s, more, u)
    decreases |actions|
  {
    hide Enabled, After;
    more, u := actions + [a], After(t, a);
    if actions == [] {
      assert more[1..] == [];
    } else {
      assert more[1..] == actions[1..] + [a];
      var rest, v := RunThen(After(s, actions[0]), actions[1..], t, a);
    }
  }

  /** Two Write calls pass the first load, one registers, and Close parks in Wait. */
  lemma ParkedClose() returns (actions: seq<Action>, t: State)
    ensures Run(Fresh(1), actions, t)
    ensures t == State(1, true, 1, false, [], false, Selecting, [], [], map[0 := Registered, 1 := Checked],
        map[0 := Parked], [])
  {
    actions, t := [], Fresh(1);
    assert Run(t, actions, t);
    hide Run;
    actions, t := RunThen(Fresh(1), actions, t, Begin(0));
    actions, t := RunThen(Fresh(1), actions, t, Begin(1));
    actions, t := RunThen(Fresh(1), actions, t, Register(0));
    actions, t := RunThen(Fresh(1), actions, t, Swap(0));
    actions, t := RunThen(Fresh(1), actions, t, Park(0));
  }

  /** The first leaves and so releases Wait; the second registers before Wait wakes up. */
  lemma WaitCanPanic() returns (actions: seq<Action>, t: State)
    ensures Run(Fresh(1), actions, t) && CloserAt(t, 0, Panicked)
  {
    hide Run;
    actions, t := ParkedClose();
    actions, t := RunThen(Fresh(1), actions, t, Recheck(0));
    assert t.closers[0] == Parked;
    actions, t := RunThen(Fresh(1), actions, t, Finish(0));
    actions, t := RunThen(Fresh(1), actions, t, Register(1));
    actions, t := RunThen(Fresh(1), actions, t, Wake(0));
  }

  // The second load of closed is what the proof rests on

  /** The logger with the second load of closed left out. */
  function AfterWithoutRecheck(s: State, a: Action): State
    requires Enabled(s, a)
  {
    if a.Recheck? then MoveWriter(s, a.w, Admitted) else After(s, a)
  }

  ghost predicate RunWithoutRecheck(s: State, actions: seq<Action>, t: State)
    decreases |actions|
  {
    if actions == [] then s == t
    else Enabled(s, actions[0]) && RunWithoutRecheck(AfterWithoutRecheck(s, actions[0]), actions[1..], t)
  }

  lemma {:induction false} RunMore(s: State, actions: seq<Action>, t: State, a: Action)
    returns (more: seq<Action>, u: State)
    requires RunWithoutRecheck(s, actions, t) && Enabled(t, a)
    ensures more == actions + [a] && u == AfterWithoutRecheck(t, a) && RunWithoutRecheck(s, more, u)
    decreases |actions|
  {
    hide Enabled, AfterWithoutRecheck;
    more, u := actions + [a], AfterWithoutRecheck(t, a);
    if actions == [] {
      assert more[1..] == [];
    } else {
      assert more[1..] == actions[1..] + [a];
      var rest, v := RunMore(AfterWithoutRecheck(s, actions[0]), actions[1..], t, a);
    }
  }

  /** A Write passes the first load before the swap and registers after the wait. */
  lemma LateWriter() returns (actions: seq<Action>, t: State)
    ensures RunWithoutRecheck(Fresh(1), actions, t)
    ensures t == State(1, true, 1, false, [], false, Selecting, [], [], map[0 := Admitted], map[0 := Signal], [])
  {
    actions, t := [], Fresh(1);
    assert RunWithoutRecheck(t, actions, t);
    hide RunWithoutRecheck;
    actions, t := RunMore(Fresh(1), actions, t, Begin(0));
    actions, t := RunMore(Fresh(1), actions, t, Swap(0));
    actions, t := RunMore(Fresh(1), actions, t, PassWrites(0));
    actions, t := RunMore(Fresh(1), actions, t, Register(0));
    actions, t := RunMore(Fresh(1), actions, t, Recheck(0));
  }

  /** Its send comes after the buffer has been drained. */
  lemma LateSend() returns (actions: seq<Action>, t: State)
    ensures RunWithoutRecheck(Fresh(1), actions, t)
    ensures t == State(1, true, 1, false, [0], true, FinalFlush, [], [], map[0 := Leaving(Accepted)],
        map[0 := WaitFlusher], [0])
  {
    hide RunWithoutRecheck;
    actions, t := LateWriter();
    actions, t := RunMore(Fresh(1), actions, t, SignalDone(0));
    actions, t := RunMore(Fresh(1), actions, t, SeeDone);
    actions, t := RunMore(Fresh(1), actions, t, DrainEmpty);
    actions, t := RunMore(Fresh(1), actions, t, Send(0));
  }

  /** Without the second load an accepted entry can be left behind although Close returns. */
  lemma RecheckIsNeeded() returns (actions: seq<Action>, t: State)
    ensures RunWithoutRecheck(Fresh(1), actions, t) && HasWon(t)
    ensures 0 in t.writers && IsAccepted(t.writers[0]) && 0 !in Written(t.store)
  {
    hide RunWithoutRecheck, Written;
    actions, t := LateSend();
    actions, t := RunMore(Fresh(1), actions, t, WriteRest);
    actions, t := RunMore(Fresh(1), actions, t, FlushStore);
    actions, t := RunMore(Fresh(1), actions, t, Exit);
    actions, t := RunMore(Fresh(1), actions, t, PassFlusher(0));
    actions, t := RunMore(Fresh(1), actions, t, CloseTheStore(0));
    assert 0 in t.closers && IsWon(t.closers[0]);
    assert t.store == [] + [Flush] + [Close];
    NothingWritten();
  }

  lemma NothingWritten()
    ensures Written([] + [Flush] + [Close]) == []
  {
    WrittenMore([], Flush);
    WrittenMore([] + [Flush], Close);
  }
}
