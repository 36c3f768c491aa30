/** Which outcome a session publishes, told from the steps of the run alone (src/session_worker.rs). */
module SessionVerdict {
  import opened Basics
  import opened Utf8
  import opened WorkerModel
  import opened SessionProtocol

  /**
    * What happened up to finalization: the first stream end received, the first exit status seen, how often the
    * revision was raised, and the step that made the capture final.
    */
  datatype Verdict = Verdict(heard: Option<EndKind>, sighted: Option<Status>, raised: nat, decision: Option<Step>)

  const NOTHING_YET: Verdict := Verdict(None, None, 0, None)

  /** A stream end taken from the queue, or a reader found gone without a word. */
  function HeardBy(s: Sys, e: Step): Option<EndKind>
    requires Enabled(s, e)
  {
    if e.Receives? && s.queue[0].End? then Some(s.queue[0].kind)
    else if e.FindsDisconnected? then Some(FailedEnd)
    else None
  }

  /** An exit status answered by a poll, by a write's check or by the reap. */
  function SightedBy(e: Step): Option<Status> {
    match e
    case PollsExit(reply, _) => reply
    case TakesOp(op) => if op.WriteOp? then op.reply else None
    case Reaps(reply) => reply
    case _ => None
  }

  /** A batch fed to the grid and a revising operation raise the revision. */
  predicate Raises(s: Sys, e: Step)
    requires Enabled(s, e)
  {
    (e.Receives? && s.queue[0].Batch?) || e == TakesOp(RevisingOp)
  }

  function FirstOf<T>(was: Option<T>, now: Option<T>): Option<T> {
    if was.Some? then was else now
  }

  function Noted(s: Sys, e: Step, v: Verdict): Verdict
    requires Enabled(s, e)
  {
    Verdict(FirstOf(v.heard, HeardBy(s, e)), FirstOf(v.sighted, SightedBy(e)),
            v.raised + (if Raises(s, e) then 1 else 0), if Next(s, e).worker.finalized then Some(e) else None)
  }

  /** The verdict of a run, closed at the step that finalizes. */
  function VerdictOf(s: Sys, es: seq<Step>, v: Verdict): Verdict
    requires RunEnabled(s, es)
    decreases |es|
  {
    if es == [] || s.worker.finalized then v else VerdictOf(Next(s, es[0]), es[1..], Noted(s, es[0], v))
  }

  /** The outcome such a verdict calls for. */
  predicate Fits(o: Outcome, v: Verdict) {
    && o.exit == v.sighted && o.revision == v.raised
    && v.decision.Some? && (v.decision.value.PollsExit? || v.decision.value.Declares?)
    && (o.stream == CleanEof <==> v.heard == Some(CleanEnd))
    && (o.stream == ReadFailed <==> v.heard == Some(FailedEnd))
    && (o.stream == DrainExpired <==> v.heard.None? && v.decision.value.PollsExit?)
    && (o.stream == Aborted <==> v.heard.None? && v.decision.value.Declares?)
    && (v.decision.value.PollsExit? ==> v.sighted.Some? && (v.heard.Some? || v.decision.value.graceOver))
  }

  /** What the worker remembers is what the run has told so far. */
  predicate Knows(s: Sys, v: Verdict) {
    s.worker.streamEnd == v.heard && s.worker.exited == v.sighted && s.worker.revision == v.raised && v.decision.None?
  }

  /** About to publish, or published, an outcome that fits. */
  predicate Settles(s: Sys, v: Verdict) {
    && s.worker.finalized
    && (s.outcome.Some? ==> Fits(s.outcome.value, v))
    && (s.pc.Publishing? ==> s.outcome.None? && Fits(s.pc.outcome, v))
  }

  /** Not final yet, nothing published or about to be. */
  predicate Open(s: Sys) {
    !s.worker.finalized && s.outcome.None? && !s.pc.Publishing?
  }

  lemma {:induction false} OpenReceive(s: Sys, e: Step, v: Verdict)
    requires Enabled(s, e) && Open(s) && Knows(s, v) && (e.Receives? || e.FindsDisconnected?)
    ensures Open(Next(s, e)) && Knows(Next(s, e), Noted(s, e, v))
  {
    if e.Receives? { assert Next(s, e) == Receive(s); }
  }

  lemma {:induction false} OpenOther(s: Sys, e: Step, v: Verdict)
    requires Enabled(s, e) && Open(s) && Knows(s, v)
    requires !e.PollsExit? && !e.Declares? && !e.Receives? && !e.FindsDisconnected?
    ensures Open(Next(s, e)) && Knows(Next(s, e), Noted(s, e, v))
  {
    hide Receive, PollExit, Declare, Ended;
  }

  lemma {:induction false} OpenStep(s: Sys, e: Step, v: Verdict)
    requires Enabled(s, e) && Open(s) && Knows(s, v) && !e.PollsExit? && !e.Declares?
    ensures Open(Next(s, e)) && Knows(Next(s, e), Noted(s, e, v))
  {
    hide Next, Enabled, Noted, Knows, Open;
    if e.Receives? || e.FindsDisconnected? { OpenReceive(s, e, v); } else { OpenOther(s, e, v); }
  }

  lemma {:induction false} DecidingStep(s: Sys, e: Step, v: Verdict)
    requires Enabled(s, e) && Open(s) && Knows(s, v) && (e.PollsExit? || e.Declares?)
    ensures var t := Next(s, e);
            if t.worker.finalized then Settles(t, Noted(s, e, v))
            else Open(t) && Knows(t, Noted(s, e, v))
  {
  }

  lemma {:induction false} SettledStep(s: Sys, e: Step, v: Verdict)
    requires Enabled(s, e) && Settles(s, v) && Inv(s)
    ensures Settles(Next(s, e), v)
  {
    hide Fits, ChannelOk, PumpOk, LogOk;
    if e.Receives? { assert Next(s, e) == Receive(s); }
  }

  lemma {:induction false} SettledRun(s: Sys, es: seq<Step>, v: Verdict)
    requires RunEnabled(s, es) && Settles(s, v) && Inv(s)
    ensures Settles(Run(s, es), v)
    decreases |es|
  {
    hide Next, Enabled, Settles, Inv;
    if es != [] {
      SettledStep(s, es[0], v);
      StepKeeps(s, es[0]);
      SettledRun(Next(s, es[0]), es[1..], v);
    }
  }

  lemma {:induction false} VerdictFits(s: Sys, es: seq<Step>, v: Verdict)
    requires RunEnabled(s, es) && Inv(s) && Knows(s, v) && Open(s)
    ensures var t := Run(s, es);
            if t.worker.finalized then Settles(t, VerdictOf(s, es, v))
                else t.outcome.None? && Knows(t, VerdictOf(s, es, v))
    decreases |es|
  {
    hide Next, Enabled, Settles, Inv, Noted, Fits;
    if es != [] {
      var t, w := Next(s, es[0]), Noted(s, es[0], v);
      StepKeeps(s, es[0]);
      if es[0].PollsExit? || es[0].Declares? { DecidingStep(s, es[0], v); } else { OpenStep(s, es[0], v); }
      if t.worker.finalized {
        SettledRun(t, es[1..], w);
        VerdictClosed(t, es[1..], w);
        SettledIsFinal(Run(t, es[1..]), w);
      } else {
        VerdictFits(t, es[1..], w);
      }
    }
  }

  lemma {:induction false} SettledIsFinal(s: Sys, v: Verdict)
    requires Settles(s, v)
    ensures s.worker.finalized
  {
  }

  lemma {:induction false} VerdictClosed(s: Sys, es: seq<Step>, v: Verdict)
    requires RunEnabled(s, es) && s.worker.finalized
    ensures VerdictOf(s, es, v) == v
  {
  }

  /**
    * In every interleaving the published outcome is what the run called for. The stream is `CleanEof` if and only if
    * the first stream end received before finalization was the clean one, and `ReadFailed` if and only if it was a
    * failure or the reader was lost without a word. With no end received it is `DrainExpired` exactly when an exit poll
    * decided, which takes an exit seen and the grace over, and `Aborted` exactly when the shutdown path decided. The
    * exit is the first status seen and the revision counts the batches fed and the revising operations.
    */
  lemma {:induction false} OutcomeTellsTheRun(record: bool, cap: nat, es: seq<Step>)
    requires RunEnabled(Init(record, cap), es)
    ensures var s := Run(Init(record, cap), es);
            && (s.outcome.Some? ==> Fits(s.outcome.value, VerdictOf(Init(record, cap), es, NOTHING_YET)))
            && (s.worker.finalized <==> VerdictOf(Init(record, cap), es, NOTHING_YET).decision.Some?)
  {
    var s0 := Init(record, cap);
    assert Inv(s0);
    hide RunEnabled, Fits, Inv;
    VerdictFits(s0, es, NOTHING_YET);
    DecidedIsFinal(s0, es, NOTHING_YET);
  }

  lemma {:induction false} DecidedIsFinal(s: Sys, es: seq<Step>, v: Verdict)
    requires RunEnabled(s, es) && (s.worker.finalized <==> v.decision.Some?)
    ensures Run(s, es).worker.finalized <==> VerdictOf(s, es, v).decision.Some?
    decreases |es|
  {
    hide Next, Enabled;
    if es != [] {
      if s.worker.finalized {
        FinalStaysFinal(s, es);
      } else {
        DecidedIsFinal(Next(s, es[0]), es[1..], Noted(s, es[0], v));
      }
    }
  }

  /** An exit poll decides exactly when an exit has been seen and the stream has ended or the grace is over. */
  lemma {:induction false} PollDecidesIff(s: Sys, reply: Option<Status>, graceOver: bool)
    requires Enabled(s, PollsExit(reply, graceOver)) && !s.worker.finalized
    ensures var t := Next(s, PollsExit(reply, graceOver));
            t.worker.finalized <==>
              (s.worker.exited.Some? || reply.Some?) && (s.worker.streamEnd.Some? || graceOver)
  {
  }

  /** The shutdown path always decides. */
  lemma {:induction false} DeclareDecides(s: Sys)
    requires Enabled(s, Declares)
    ensures Next(s, Declares).worker.finalized
  {
  }

  /** Read one batch, read the end, drain both in one tick, see the exit, publish. */
  function CleanRun(bytes: Bytes, status: Status): seq<Step> {
    [ReadBatch(bytes), SendOk, ReadEnds(CleanEnd), SendOk, TimesOut, Receives, Receives, FindsDisconnected,
     PollsExit(Some(status), false), Publishes]
  }

  lemma {:induction false} RunFrom(s: Sys, es: seq<Step>, i: nat)
    requires i < |es| && Enabled(s, es[i]) && RunEnabled(Next(s, es[i]), es[i + 1..])
    ensures RunEnabled(s, es[i..]) && Run(s, es[i..]) == Run(Next(s, es[i]), es[i + 1..])
  {
    assert es[i..][1..] == es[i + 1..];
  }

  lemma {:induction false} RunNoStep(s: Sys, es: seq<Step>)
    ensures RunEnabled(s, es[|es|..]) && Run(s, es[|es|..]) == s
  {
  }

  /** The state of the run of `CleanRun` once the reader is done. */
  function AllSent(record: bool, cap: nat, bytes: Bytes): Sys {
    var ms := [Batch(bytes), End(CleanEnd)];
    Sys(ReaderDone, ms, NewWorker(record, cap), Top, false, None, 0, false, bytes, ms, [])
  }

  lemma {:induction false} CleanReading(record: bool, cap: nat, bytes: Bytes, es: seq<Step>)
    requires bytes != [] && |es| >= 4 && es[0] == ReadBatch(bytes) && es[1] == SendOk
    requires es[2] == ReadEnds(CleanEnd) && es[3] == SendOk
    requires RunEnabled(AllSent(record, cap, bytes), es[4..])
    ensures RunEnabled(Init(record, cap), es)
    ensures Run(Init(record, cap), es) == Run(AllSent(record, cap, bytes), es[4..])
  {
    hide RunEnabled, Run;
    var s0 := Init(record, cap);
    var s1 := Next(s0, es[0]);
    var s2 := Next(s1, es[1]);
    var s3 := Next(s2, es[2]);
    var s4 := Next(s3, es[3]);
    assert s4 == AllSent(record, cap, bytes);
    RunFrom(s3, es, 3);
    RunFrom(s2, es, 2);
    RunFrom(s1, es, 1);
    RunFrom(s0, es, 0);
    assert es[0..] == es;
  }

  lemma {:induction false} CleanDraining(s: Sys, bytes: Bytes, es: seq<Step>)
    requires s.pc == Top && s.queue == [Batch(bytes), End(CleanEnd)] && s.reader.ReaderDone? && !s.worker.finalized
    requires s.worker.streamEnd.None? && |bytes| < FEED_BUDGET_PER_TICK
    requires |es| >= 8 && es[4] == TimesOut && es[5] == es[6] == Receives && es[7] == FindsDisconnected
    ensures var t := s.(pc := PollingExit, queue := [], received := s.received + s.queue,
                        worker := Ended(Fed(s.worker, bytes), CleanEnd));
            RunEnabled(t, es[8..]) ==> RunEnabled(s, es[4..]) && Run(s, es[4..]) == Run(t, es[8..])
  {
    hide RunEnabled, Run, Fed;
    assert !Fed(s.worker, bytes).finalized && Fed(s.worker, bytes).streamEnd.None? by { FedKeepsOpen(s.worker, bytes); }
    var s5 := Next(s, es[4]);
    var s6 := Next(s5, es[5]);
    var s7 := Next(s6, es[6]);
    var s8 := Next(s7, es[7]);
    assert s8.received == s.received + s.queue && s8.worker == Ended(Fed(s.worker, bytes), CleanEnd);
    if RunEnabled(s8, es[8..]) {
      RunFrom(s7, es, 7);
      RunFrom(s6, es, 6);
      RunFrom(s5, es, 5);
      RunFrom(s, es, 4);
    }
  }

  lemma {:induction false} FedKeepsOpen(w: Worker, bytes: Bytes)
    ensures Fed(w, bytes).finalized == w.finalized && Fed(w, bytes).streamEnd == w.streamEnd
  {
  }

  lemma {:induction false} CleanClosing(s: Sys, status: Status, es: seq<Step>)
    requires s.pc.PollingExit? && !s.worker.finalized && s.worker.exited.None? && s.outcome.None?
    requires s.worker.streamEnd == Some(CleanEnd)
    requires |es| == 10 && es[8] == PollsExit(Some(status), false) && es[9] == Publishes
    ensures RunEnabled(s, es[8..])
    ensures Run(s, es[8..]).outcome == Some(Outcome(Some(status), CleanEof, s.worker.revision, |s.worker.pumped|))
  {
    hide RunEnabled, Run;
    var s9 := Next(s, es[8]);
    var s10 := Next(s9, es[9]);
    RunNoStep(s10, es);
    RunFrom(s9, es, 9);
    RunFrom(s, es, 8);
  }

  /** The run of a child that prints a little and exits is possible and reports a clean end with everything pumped. */
  lemma {:induction false} CleanRunIsClean(record: bool, cap: nat, bytes: Bytes, status: Status)
    requires 0 < |bytes| < FEED_BUDGET_PER_TICK
    ensures var es := CleanRun(bytes, status);
            RunEnabled(Init(record, cap), es)
            && Run(Init(record, cap), es).outcome == Some(Outcome(Some(status), CleanEof, 1, |bytes|))
  {
    hide RunEnabled, Run, Next, Enabled;
    var es := CleanRun(bytes, status);
    var s4 := AllSent(record, cap, bytes);
    var s8 := s4.(pc := PollingExit, queue := [], received := s4.received + s4.queue,
                  worker := Ended(Fed(s4.worker, bytes), CleanEnd));
    CleanClosing(s8, status, es);
    CleanDraining(s4, bytes, es);
    CleanReading(record, cap, bytes, es);
  }

  // ---- no batch goes missing ----

  function Batches(ms: seq<Msg>): nat {
    if ms == [] then 0 else Batches(ms[..|ms| - 1]) + (if ms[|ms| - 1].Batch? then 1 else 0)
  }

  predicate Accounted(s: Sys) {
    s.worker.feeds + s.worker.dropped == Batches(s.received) && (!s.worker.finalized ==> s.worker.dropped == 0)
  }

  lemma {:induction false} ReceiveAccounts(s: Sys)
    requires s.pc.Draining? && s.queue != [] && Accounted(s)
    ensures Accounted(Receive(s))
  {
    assert (s.received + [s.queue[0]])[..|s.received|] == s.received;
  }

  lemma {:induction false} StepAccounts(s: Sys, e: Step)
    requires Enabled(s, e) && Accounted(s)
    ensures Accounted(Next(s, e))
  {
    hide Batches, Receive;
    if e.Receives? { ReceiveAccounts(s); }
  }

  lemma {:induction false} RunAccounts(s: Sys, es: seq<Step>)
    requires RunEnabled(s, es) && Accounted(s)
    ensures Accounted(Run(s, es))
    decreases |es|
  {
    hide Next, Enabled, Accounted;
    if es != [] {
      StepAccounts(s, es[0]);
      RunAccounts(Next(s, es[0]), es[1..]);
    }
  }

  /** In every interleaving each batch received was either fed, before finalization, or counted as dropped, after it. */
  lemma {:induction false} NoBatchGoesMissing(record: bool, cap: nat, es: seq<Step>)
    requires RunEnabled(Init(record, cap), es)
    ensures var s := Run(Init(record, cap), es);
            && s.worker.feeds + s.worker.dropped == Batches(s.received)
            && (!s.worker.finalized ==> s.worker.dropped == 0)
  {
    hide RunEnabled;
    RunAccounts(Init(record, cap), es);
  }
}
