/** Reader, worker, handle and child in every interleaving (src/session_worker.rs). */
module SessionProtocol {
  import opened Basics
  import opened Utf8
  import opened WorkerModel

  datatype ReaderPc = Reading | Sending(msg: Msg) | ReaderDone

  /**
    * Where the worker thread stands. `Draining` is inside `drain_data`, on the way out when `aborting`; `Publishing`
    * sits between the finalized flag and the locked publication.
    */
  datatype WorkerPc =
    | Top
    | Draining(budget: nat, aborting: bool)
    | PollingExit
    | Publishing(outcome: Outcome, aborting: bool)
    | Reaping
    | Declaring
    | Closing
    | WorkerGone

  datatype Sys = Sys(
    reader: ReaderPc,
    queue: seq<Msg>,
    worker: Worker,
    pc: WorkerPc,
    shutdown: bool,
    outcome: Option<Outcome>,
    publications: nat,
    closed: bool,
    // history
    read: Bytes,
    sent: seq<Msg>,
    received: seq<Msg>)

  /** A control operation, by what it may do to the capture. */
  datatype Op =
    | ReadOnlyOp
    | RevisingOp
    | WriteOp(reply: Option<Status>)
    | ShutdownOp

  datatype Step =
    // reader
    | ReadBatch(bytes: Bytes)
    | ReadEnds(kind: EndKind)
    | SendOk
    | SendFails
    | ReaderDies
    // worker
    | SeesShutdown
    | TakesOp(op: Op)
    | TimesOut
    | LosesHandle
    | Receives
    | FindsEmpty
    | FindsDisconnected
    | PollsExit(reply: Option<Status>, graceOver: bool)
    | Publishes
    | Reaps(reply: Option<Status>)
    | Declares
    | Closes
    // handle
    | RequestsShutdown
    | MarksClosed

  predicate Enabled(s: Sys, e: Step) {
    match e
    case ReadBatch(bytes) => s.reader.Reading? && bytes != []
    case ReadEnds(_) => s.reader.Reading?
    case SendOk => s.reader.Sending? && |s.queue| < DATA_QUEUE_BATCHES && !s.pc.WorkerGone?
    case SendFails => s.reader.Sending? && s.pc.WorkerGone?
    case ReaderDies => !s.reader.ReaderDone?
    case SeesShutdown => s.pc.Top? && s.shutdown
    case TakesOp(_) => s.pc.Top?
    case TimesOut => s.pc.Top?
    case LosesHandle => s.pc.Top?
    case Receives => s.pc.Draining? && s.queue != []
    case FindsEmpty => s.pc.Draining? && s.queue == [] && !s.reader.ReaderDone?
    case FindsDisconnected => s.pc.Draining? && s.queue == [] && s.reader.ReaderDone?
    case PollsExit(_, _) => s.pc.PollingExit?
    case Publishes => s.pc.Publishing?
    case Reaps(_) => s.pc.Reaping?
    case Declares => s.pc.Declaring?
    case Closes => s.pc.Closing?
    case RequestsShutdown => true
    case MarksClosed => true
  }

  /** `shutdown_and_exit` drains first unless the outcome is final. */
  function BeginShutdown(s: Sys): Sys {
    s.(pc := if s.worker.finalized then Reaping else Draining(FEED_BUDGET_PER_TICK, true))
  }

  function AfterDrain(aborting: bool): WorkerPc {
    if aborting then Reaping else PollingExit
  }

  function TakeOp(s: Sys, op: Op): Sys {
    match op
    case ShutdownOp => BeginShutdown(s)
    case ReadOnlyOp => s.(pc := Draining(FEED_BUDGET_PER_TICK, false))
    case RevisingOp =>
      s.(worker := s.worker.(revision := s.worker.revision + 1), pc := Draining(FEED_BUDGET_PER_TICK, false))
    case WriteOp(reply) =>
      s.(worker := if s.worker.exited.None? then s.worker.(exited := reply) else s.worker,
         pc := Draining(FEED_BUDGET_PER_TICK, false))
  }

  function Receive(s: Sys): Sys
    requires s.pc.Draining? && s.queue != []
  {
    var m := s.queue[0];
    s.(queue := s.queue[1..], received := s.received + [m], worker := Received(s.worker, m),
       pc := if StopsAfter(s.pc.budget, m) then AfterDrain(s.pc.aborting)
             else Draining(BudgetAfter(s.pc.budget, m), s.pc.aborting))
  }

  function PollExit(s: Sys, reply: Option<Status>, graceOver: bool): Sys {
    var w := s.worker;
    if w.finalized then s.(pc := Top)
    else
      var seen := if w.exited.None? then w.(exited := reply) else w;
      if seen.exited.None? || (w.streamEnd.None? && !graceOver) then s.(worker := seen, pc := Top)
      else
        var stream := StreamOf(w.streamEnd, DrainExpired);
        s.(worker := Finalized(seen, stream), pc := Publishing(OutcomeOf(seen, stream), false))
  }

  function Declare(s: Sys): Sys {
    if s.worker.finalized then s.(pc := Closing)
    else
      var stream := StreamOf(s.worker.streamEnd, Aborted);
      s.(worker := Finalized(s.worker, stream), pc := Publishing(OutcomeOf(s.worker, stream), true))
  }

  function Publish(s: Sys): Sys
    requires s.pc.Publishing?
  {
    var pc := if s.pc.aborting then Closing else Top;
    if s.outcome.None? then s.(outcome := Some(s.pc.outcome), publications := s.publications + 1, pc := pc)
    else s.(pc := pc)
  }

  function Next(s: Sys, e: Step): Sys
    requires Enabled(s, e)
  {
    match e
    case ReadBatch(bytes) => s.(reader := Sending(Batch(bytes)), read := s.read + bytes)
    case ReadEnds(kind) => s.(reader := Sending(End(kind)))
    case SendOk =>
      var m := s.reader.msg;
      s.(reader := if m.End? then ReaderDone else Reading, queue := s.queue + [m], sent := s.sent + [m])
    case SendFails => s.(reader := ReaderDone)
    case ReaderDies => s.(reader := ReaderDone)
    case SeesShutdown => BeginShutdown(s)
    case TakesOp(op) => TakeOp(s, op)
    case TimesOut => s.(pc := Draining(FEED_BUDGET_PER_TICK, false))
    case LosesHandle => BeginShutdown(s)
    case Receives => Receive(s)
    case FindsEmpty => s.(pc := AfterDrain(s.pc.aborting))
    case FindsDisconnected => s.(worker := Ended(s.worker, FailedEnd), pc := AfterDrain(s.pc.aborting))
    case PollsExit(reply, graceOver) => PollExit(s, reply, graceOver)
    case Publishes => Publish(s)
    case Reaps(reply) =>
      s.(worker := if s.worker.exited.None? then s.worker.(exited := reply) else s.worker, pc := Declaring)
    case Declares => Declare(s)
    case Closes => s.(closed := true, pc := WorkerGone, queue := [])
    case RequestsShutdown => s.(shutdown := true)
    case MarksClosed => s.(closed := true)
  }

  function Init(record: bool, cap: nat): Sys {
    Sys(Reading, [], NewWorker(record, cap), Top, false, None, 0, false, [], [], [])
  }

  // ---- the invariant ----

  /** The stream end is the last thing a reader says. */
  predicate EndIsLast(ms: seq<Msg>) {
    forall i | 0 <= i < |ms| && ms[i].End? :: i == |ms| - 1
  }

  predicate HasEnd(ms: seq<Msg>) {
    ms != [] && ms[|ms| - 1].End?
  }

  predicate ChannelOk(s: Sys) {
    && EndIsLast(s.sent)
    && (HasEnd(s.sent) ==> s.reader.ReaderDone?)
    && (!s.pc.WorkerGone? ==> s.sent == s.received + s.queue)
    && s.received <= s.sent
    && BytesOf(s.sent) <= s.read
    && (!s.reader.ReaderDone? ==>
          s.read == BytesOf(s.sent) + (if s.reader.Sending? && s.reader.msg.Batch? then s.reader.msg.bytes else []))
    && (HasEnd(s.sent) ==> s.read == BytesOf(s.sent))
  }

  /** Before finalization the grid has everything received; afterwards it keeps what it had then. */
  predicate PumpOk(s: Sys) {
    && s.worker.pumped <= BytesOf(s.received)
    && (!s.worker.finalized ==> s.worker.pumped == BytesOf(s.received))
    && (s.worker.streamEnd == Some(CleanEnd) ==> HasEnd(s.received))
    && (s.worker.finalized == s.worker.finalStream.Some?)
    && (s.worker.finalStream == Some(CleanEof) ==> HasEnd(s.sent) && s.worker.pumped == s.read)
  }

  predicate OutcomeFits(s: Sys, o: Outcome) {
    s.worker.finalized && s.worker.finalStream == Some(o.stream) && o.bytesPumped == |s.worker.pumped|
  }

  predicate OutcomeOk(s: Sys) {
    && s.publications == (if s.outcome.Some? then 1 else 0)
    && (s.pc.Publishing? ==> s.outcome.None? && OutcomeFits(s, s.pc.outcome))
    && (s.worker.finalized && !s.pc.Publishing? ==> s.outcome.Some?)
    && (s.outcome.Some? ==> OutcomeFits(s, s.outcome.value))
  }

  predicate Inv(s: Sys) {
    ChannelOk(s) && PumpOk(s) && LogOk(s.worker) && OutcomeOk(s)
  }

  lemma {:induction false} BytesPrefix(a: seq<Msg>, b: seq<Msg>)
    ensures BytesOf(a) <= BytesOf(a + b)
    decreases |b|
  {
    if b == [] {
      assert a + b == a;
    } else {
      var front := b[..|b| - 1];
      BytesPrefix(a, front);
      BytesSnoc(a + front, b[|b| - 1]);
      assert a + b == a + front + [b[|b| - 1]];
    }
  }

  // ---- each kind of step keeps it ----

  lemma {:induction false} ReaderKeeps(s: Sys, e: Step)
    requires Inv(s) && Enabled(s, e) && (e.ReadBatch? || e.ReadEnds? || e.SendOk? || e.SendFails? || e.ReaderDies?)
    ensures Inv(Next(s, e))
  {
    hide BytesOf, LogOk;
    if e.SendOk? {
      var m := s.reader.msg;
      BytesSnoc(s.sent, m);
      assert s.received + (s.queue + [m]) == s.received + s.queue + [m];
    }
  }

  lemma {:induction false} ReceiveChannel(s: Sys)
    requires ChannelOk(s) && s.pc.Draining? && s.queue != []
    ensures ChannelOk(Receive(s))
        && BytesOf(Receive(s).received) == BytesOf(s.received) + (if s.queue[0].Batch? then s.queue[0].bytes else [])
  {
    hide BytesOf, Received;
    var m := s.queue[0];
    BytesSnoc(s.received, m);
    assert s.received + s.queue == s.received + [m] + s.queue[1..];
  }

  /** Receiving the stream end means having received everything that was ever sent. */
  lemma {:induction false} EndMeansAll(s: Sys)
    requires ChannelOk(s) && HasEnd(s.received)
    ensures s.received == s.sent && s.read == BytesOf(s.received)
  {
    hide BytesOf;
    assert s.sent[|s.received| - 1].End?;
  }

  lemma {:induction false} ReceiveKeeps(s: Sys)
    requires Inv(s) && s.pc.Draining? && s.queue != []
    ensures Inv(Receive(s))
  {
    hide BytesOf, LogOk;
    var m := s.queue[0];
    var t := Receive(s);
    ReceiveChannel(s);
    assert LogOk(t.worker) by { ReceivedKeepsLog(s.worker, m); }
    assert !HasEnd(s.received) by {
      if HasEnd(s.received) { EndMeansAll(s); }
    }
    ReceivePumps(s, t);
  }

  lemma {:induction false} ReceivePumps(s: Sys, t: Sys)
    requires Inv(s) && s.pc.Draining? && s.queue != [] && t == Receive(s) && !HasEnd(s.received)
    requires BytesOf(t.received) == BytesOf(s.received) + (if s.queue[0].Batch? then s.queue[0].bytes else [])
    ensures PumpOk(t) && OutcomeOk(t)
  {
    hide BytesOf, LogOk, ChannelOk;
  }

  lemma {:induction false} DisconnectKeeps(s: Sys)
    requires Inv(s) && Enabled(s, FindsDisconnected)
    ensures Inv(Next(s, FindsDisconnected))
  {
    hide BytesOf;
  }

  /** Worker and handle steps that leave the channel alone. */
  lemma {:induction false} ChannelIgnores(s: Sys, t: Sys)
    requires ChannelOk(s) && t.reader == s.reader && t.sent == s.sent && t.received == s.received && t.read == s.read
    requires t.pc.WorkerGone? || (t.queue == s.queue && !s.pc.WorkerGone?)
    ensures ChannelOk(t)
  {
    hide BytesOf, EndIsLast;
  }

  /** Declaring the outcome: everything received has been pumped, and a clean end means everything read was received. */
  lemma {:induction false} FinalizeKeeps(s: Sys, seen: Worker, otherwise: StreamState, aborting: bool)
    requires Inv(s) && !s.pc.WorkerGone? && !s.pc.Publishing? && !s.worker.finalized && otherwise != CleanEof
    requires seen == s.worker.(exited := seen.exited)
    ensures var stream := StreamOf(s.worker.streamEnd, otherwise);
            Inv(s.(worker := Finalized(seen, stream), pc := Publishing(OutcomeOf(seen, stream), aborting)))
  {
    hide BytesOf, LogOk, ChannelOk, HasEnd;
    var stream := StreamOf(s.worker.streamEnd, otherwise);
    var t := s.(worker := Finalized(seen, stream), pc := Publishing(OutcomeOf(seen, stream), aborting));
    ChannelIgnores(s, t);
    LogIgnores(s.worker, t.worker);
    if HasEnd(s.received) { EndMeansAll(s); }
  }

  lemma {:induction false} PollKeeps(s: Sys, reply: Option<Status>, graceOver: bool)
    requires Inv(s) && s.pc.PollingExit?
    ensures Inv(PollExit(s, reply, graceOver))
  {
    hide Inv;
    var w := s.worker;
    var seen := if w.exited.None? then w.(exited := reply) else w;
    assert w == w.(exited := w.exited) && seen == w.(exited := seen.exited);
    PhaseKeeps(s, if w.finalized then w else seen, Top);
    if !w.finalized { FinalizeKeeps(s, seen, DrainExpired, false); }
  }

  lemma {:induction false} LogIgnores(w: Worker, w': Worker)
    requires w'.record == w.record && w'.cap == w.cap && w'.log == w.log && w'.pumped == w.pumped && w'.total == w.total
    requires w'.truncated == w.truncated
    ensures LogOk(w) ==> LogOk(w')
  {
  }

  lemma {:induction false} DeclareKeeps(s: Sys)
    requires Inv(s) && s.pc.Declaring?
    ensures Inv(Declare(s))
  {
    hide Inv;
    var w := s.worker;
    assert w == w.(exited := w.exited);
    PhaseKeeps(s, w, Closing);
    if !w.finalized { FinalizeKeeps(s, w, Aborted, true); }
  }

  /** Moving the worker between phases, with at most a revision or an exit sighting noted on the way. */
  lemma {:induction false} PhaseKeeps(s: Sys, w: Worker, pc: WorkerPc)
    requires Inv(s) && !s.pc.WorkerGone? && !s.pc.Publishing? && !pc.WorkerGone? && !pc.Publishing?
    requires w == s.worker.(revision := w.revision, exited := w.exited)
    ensures Inv(s.(worker := w, pc := pc))
  {
    hide BytesOf, LogOk, ChannelOk, HasEnd;
    var t := s.(worker := w, pc := pc);
    ChannelIgnores(s, t);
    LogIgnores(s.worker, t.worker);
  }

  lemma {:induction false} ControlKeeps(s: Sys, e: Step)
    requires Inv(s) && Enabled(s, e)
    requires e.SeesShutdown? || e.TakesOp? || e.TimesOut? || e.LosesHandle? || e.FindsEmpty? || e.Reaps?
    ensures Inv(Next(s, e))
  {
    hide Inv;
    var t := Next(s, e);
    PhaseKeeps(s, t.worker, t.pc);
    assert t == s.(worker := t.worker, pc := t.pc);
  }

  lemma {:induction false} ClosingKeeps(s: Sys, e: Step)
    requires Inv(s) && Enabled(s, e) && (e.Publishes? || e.Closes? || e.RequestsShutdown? || e.MarksClosed?)
    ensures Inv(Next(s, e))
  {
    hide BytesOf, LogOk, ChannelOk, HasEnd;
    var t := Next(s, e);
    ChannelIgnores(s, t);
    LogIgnores(s.worker, t.worker);
  }

  lemma {:induction false} StepKeeps(s: Sys, e: Step)
    requires Inv(s) && Enabled(s, e)
    ensures Inv(Next(s, e))
  {
    hide Inv, Receive, PollExit, Declare, Publish, TakeOp, BeginShutdown;
    match e {
      case Receives => ReceiveKeeps(s);
      case FindsDisconnected => DisconnectKeeps(s);
      case PollsExit(reply, graceOver) => PollKeeps(s, reply, graceOver);
      case Declares => DeclareKeeps(s);
      case ReadBatch(_) => ReaderKeeps(s, e);
      case ReadEnds(_) => ReaderKeeps(s, e);
      case SendOk => ReaderKeeps(s, e);
      case SendFails => ReaderKeeps(s, e);
      case ReaderDies => ReaderKeeps(s, e);
      case Publishes => ClosingKeeps(s, e);
      case Closes => ClosingKeeps(s, e);
      case RequestsShutdown => ClosingKeeps(s, e);
      case MarksClosed => ClosingKeeps(s, e);
      case _ => ControlKeeps(s, e);
    }
  }

  /** What no step takes back once the capture is final. */
  predicate Settled(s: Sys, t: Sys) {
    && (s.outcome.Some? ==> t.outcome == s.outcome)
    && (s.worker.finalized ==>
          t.worker.finalized && t.worker.pumped == s.worker.pumped && t.worker.log == s.worker.log
              && t.worker.total == s.worker.total
          && t.worker.finalStream == s.worker.finalStream)
  }

  lemma {:induction false} StepSettles(s: Sys, e: Step)
    requires Enabled(s, e)
    ensures Settled(s, Next(s, e))
  {
  }

  // ---- whole runs ----

  predicate RunEnabled(s: Sys, es: seq<Step>)
    decreases |es|
  {
    es == [] || (Enabled(s, es[0]) && RunEnabled(Next(s, es[0]), es[1..]))
  }

  function Run(s: Sys, es: seq<Step>): Sys
    requires RunEnabled(s, es)
    decreases |es|
  {
    if es == [] then s else Run(Next(s, es[0]), es[1..])
  }

  lemma {:induction false} RunKeeps(s: Sys, es: seq<Step>)
    requires Inv(s) && RunEnabled(s, es)
    ensures Inv(Run(s, es))
    decreases |es|
  {
    hide Inv, Next, Enabled;
    if es != [] {
      StepKeeps(s, es[0]);
      RunKeeps(Next(s, es[0]), es[1..]);
    }
  }

  /**
    * From any state on: a published outcome never changes, and once the capture is final neither what the grid was fed
    * nor the recorded log changes, whatever still arrives.
    */
  lemma {:induction false} FinalStaysFinal(s: Sys, es: seq<Step>)
    requires RunEnabled(s, es)
    ensures Settled(s, Run(s, es))
    decreases |es|
  {
    hide Next, Enabled;
    if es != [] {
      StepSettles(s, es[0]);
      FinalStaysFinal(Next(s, es[0]), es[1..]);
    }
  }

  /**
    * In every interleaving: at most one publication; the grid was fed a prefix of what was read; the log is the first
    * `cap` of those bytes; and an outcome of clean end-of-file means that everything read was fed before it was
    * declared.
    */
  lemma {:induction false} CaptureIsFaithful(record: bool, cap: nat, es: seq<Step>)
    requires RunEnabled(Init(record, cap), es)
    ensures var s := Run(Init(record, cap), es);
            && s.publications <= 1
            && s.worker.pumped <= s.read
            && (record ==> s.worker.log == First(s.worker.pumped, cap) && s.worker.total == |s.worker.pumped|)
            && (s.outcome.Some? ==> s.publications == 1 && s.outcome.value.bytesPumped == |s.worker.pumped|)
            && (s.outcome.Some? && s.outcome.value.stream == CleanEof ==>
                  s.worker.pumped == s.read && s.outcome.value.bytesPumped == |s.read|)
  {
    var s0 := Init(record, cap);
    assert Inv(s0);
    hide RunEnabled;
    RunKeeps(s0, es);
    RunKeepsSettings(s0, es);
    var s := Run(s0, es);
    PumpedIsRead(s);
  }

  lemma {:induction false} PumpedIsRead(s: Sys)
    requires Inv(s)
    ensures s.worker.pumped <= s.read
  {
    hide BytesOf;
    BytesPrefix(s.received, s.sent[|s.received|..]);
    assert s.received + s.sent[|s.received|..] == s.sent;
  }

  lemma {:induction false} RunKeepsSettings(s: Sys, es: seq<Step>)
    requires RunEnabled(s, es)
    ensures Run(s, es).worker.record == s.worker.record && Run(s, es).worker.cap == s.worker.cap
    decreases |es|
  {
    hide Next, Enabled;
    if es != [] {
      StepKeepsSettings(s, es[0]);
      RunKeepsSettings(Next(s, es[0]), es[1..]);
    }
  }

  lemma {:induction false} StepKeepsSettings(s: Sys, e: Step)
    requires Enabled(s, e)
    ensures Next(s, e).worker.record == s.worker.record && Next(s, e).worker.cap == s.worker.cap
  {
    if e.Receives? {
      assert Next(s, e) == Receive(s);
    }
  }
}
