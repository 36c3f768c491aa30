/** The worker's own state and its operations (src/session_worker.rs). */
module WorkerModel {
  import opened Basics
  import opened Utf8

  type Status = int

  datatype EndKind = CleanEnd | FailedEnd

  datatype Msg = Batch(bytes: Bytes) | End(kind: EndKind)

  datatype StreamState = CleanEof | ReadFailed | DrainExpired | Aborted

  /** `CaptureOutcome`; an exit that was never observed is `None`. */
  datatype Outcome = Outcome(exit: Option<Status>, stream: StreamState, revision: nat, bytesPumped: nat)

  /** `pumped` is everything the grid was fed, in order; `bytes_pumped` is its length. */
  datatype Worker = Worker(
    pumped: Bytes,
    feeds: nat,
    dropped: nat,
    record: bool,
    cap: nat,
    log: Bytes,
    total: nat,
    truncated: bool,
    revision: nat,
    streamEnd: Option<EndKind>,
    finalStream: Option<StreamState>,
    exited: Option<Status>,
    finalized: bool)

  const FEED_BUDGET_PER_TICK: nat := 256 * 1024
  const DATA_QUEUE_BATCHES: nat := 8

  function NewWorker(record: bool, cap: nat): Worker {
    Worker([], 0, 0, record, cap, [], 0, false, 0, None, None, None, false)
  }

  function First(s: Bytes, n: nat): Bytes {
    if n < |s| then s[..n] else s
  }

  /** The log is the first `cap` pumped bytes, and says so when it had to cut. */
  predicate LogOk(w: Worker) {
    if w.record then w.log == First(w.pumped, w.cap) && w.total == |w.pumped| && w.truncated == (|w.pumped| > w.cap)
    else w.log == [] && w.total == 0 && !w.truncated
  }

  /** `feed`, as the log and the counters see it; after finalization the batch is only counted. */
  function Fed(w: Worker, bytes: Bytes): Worker {
    if w.finalized then w.(dropped := w.dropped + 1)
    else
      var take := Min(if w.cap > |w.log| then w.cap - |w.log| else 0, |bytes|);
      var w1 := w.(pumped := w.pumped + bytes, feeds := w.feeds + 1, revision := w.revision + 1);
      if !w.record then w1
      else if w.truncated then w1.(total := w.total + |bytes|)
      else w1.(total := w.total + |bytes|, log := w.log + bytes[..take], truncated := take < |bytes|)
  }

  /** The first declaration wins. */
  function Ended(w: Worker, kind: EndKind): Worker {
    if w.streamEnd.None? then w.(streamEnd := Some(kind)) else w
  }

  function Received(w: Worker, m: Msg): Worker {
    match m
    case Batch(bytes) => Fed(w, bytes)
    case End(kind) => Ended(w, kind)
  }

  function StreamOf(end: Option<EndKind>, otherwise: StreamState): StreamState {
    match end
    case Some(CleanEnd) => CleanEof
    case Some(FailedEnd) => ReadFailed
    case None => otherwise
  }

  /** A final stream state says how the stream ended, or with `otherwise` that no end had been received. */
  predicate Judges(stream: StreamState, end: Option<EndKind>, otherwise: StreamState) {
    && (stream == CleanEof <==> end == Some(CleanEnd))
    && (stream == ReadFailed <==> end == Some(FailedEnd))
    && (stream == otherwise <==> end.None?)
  }

  function Finalized(w: Worker, stream: StreamState): Worker {
    w.(finalized := true, finalStream := Some(stream))
  }

  function OutcomeOf(w: Worker, stream: StreamState): Outcome {
    Outcome(w.exited, stream, w.revision, |w.pumped|)
  }

  lemma {:induction false} FedKeepsLog(w: Worker, bytes: Bytes)
    requires LogOk(w)
    ensures LogOk(Fed(w, bytes))
  {
    var take := Min(if w.cap > |w.log| then w.cap - |w.log| else 0, |bytes|);
    var all := w.pumped + bytes;
    if !w.finalized && w.record {
      if w.truncated {
        assert First(all, w.cap) == w.log;
      } else {
        assert w.log == w.pumped;
        assert First(all, w.cap) == w.log + bytes[..take];
      }
    }
  }

  lemma {:induction false} ReceivedKeepsLog(w: Worker, m: Msg)
    requires LogOk(w)
    ensures LogOk(Received(w, m))
  {
    hide Fed;
    match m {
      case Batch(bytes) => FedKeepsLog(w, bytes);
      case End(_) =>
    }
  }

  // ---- draining ----

  /** The bytes of a message list, in order. */
  function BytesOf(ms: seq<Msg>): Bytes {
    if ms == [] then []
    else BytesOf(ms[..|ms| - 1]) + (if ms[|ms| - 1].Batch? then ms[|ms| - 1].bytes else [])
  }

  lemma {:induction false} BytesSnoc(ms: seq<Msg>, m: Msg)
    ensures BytesOf(ms + [m]) == BytesOf(ms) + (if m.Batch? then m.bytes else [])
  {
    assert (ms + [m])[..|ms|] == ms;
  }

  /** Bytes left of a tick's budget after a message. */
  function BudgetAfter(budget: nat, m: Msg): nat {
    if m.Batch? then (if budget > |m.bytes| then budget - |m.bytes| else 0) else budget
  }

  /** Whether the drain stops after a message: only a batch can exhaust the budget. */
  predicate StopsAfter(budget: nat, m: Msg) {
    m.Batch? && BudgetAfter(budget, m) == 0
  }

  /** The messages of several arrivals, in order. */
  function Flat(arrivals: seq<seq<Msg>>): seq<Msg> {
    if arrivals == [] then [] else arrivals[0] + Flat(arrivals[1..])
  }

  /** A drain's result: the worker, what is left queued, what had not arrived yet, and how many messages were taken. */
  datatype Drained = Drained(worker: Worker, queue: seq<Msg>, coming: seq<seq<Msg>>, taken: nat)

  /**
    * One drain while the reader keeps sending: `arrivals[k]` reaches the queue just before the k-th receive. It stops
    * on an empty queue, noting a reader that is gone without a word, or when a batch has used up the budget.
    */
  function Drain(w: Worker, queue: seq<Msg>, budget: nat, arrivals: seq<seq<Msg>>, gone: bool): Drained
    decreases |queue| + |Flat(arrivals)|
  {
    var q := if arrivals == [] then queue else queue + arrivals[0];
    var rest := if arrivals == [] then [] else arrivals[1..];
    if q == [] then Drained(if rest == [] && gone then Ended(w, FailedEnd) else w, [], rest, 0)
    else if StopsAfter(budget, q[0]) then Drained(Received(w, q[0]), q[1..], rest, 1)
    else
      var d := Drain(Received(w, q[0]), q[1..], BudgetAfter(budget, q[0]), rest, gone);
      d.(taken := d.taken + 1)
  }

  function BatchBytes(ms: seq<Msg>): nat {
    if ms == [] then 0 else (if ms[0].Batch? then |ms[0].bytes| else 0) + BatchBytes(ms[1..])
  }

  /**
    * A drain receives the messages in the order they were sent, skipping none, and a flooding child cannot make it
    * run on: all but the last message taken stay under the budget.
    */
  lemma {:induction false} DrainInOrder(w: Worker, queue: seq<Msg>, budget: nat, arrivals: seq<seq<Msg>>, gone: bool)
    requires budget > 0
    ensures var d, all := Drain(w, queue, budget, arrivals, gone), queue + Flat(arrivals);
            && d.taken <= |all| && d.queue + Flat(d.coming) == all[d.taken..]
            && (d.worker == ReceivedAll(w, all[..d.taken])
                || (d.taken == |all| && gone && d.worker == Ended(ReceivedAll(w, all), FailedEnd)))
            && (d.taken > 0 ==> BatchBytes(all[..d.taken - 1]) < budget)
    decreases |queue| + |Flat(arrivals)|
  {
    hide Received, Fed;
    var all := queue + Flat(arrivals);
    var q := if arrivals == [] then queue else queue + arrivals[0];
    var rest := if arrivals == [] then [] else arrivals[1..];
    assert all == q + Flat(rest);
    if q == [] {
      assert all[..0] == [];
    } else {
      var tail := q[1..] + Flat(rest);
      assert all[0] == q[0] && all[1..] == tail;
      if StopsAfter(budget, q[0]) {
        assert all[..1] == [q[0]] && all[..0] == [];
        ReceivedFirst(w, all, 0);
      } else {
        var left := BudgetAfter(budget, q[0]);
        var d := Drain(Received(w, q[0]), q[1..], left, rest, gone);
        DrainInOrder(Received(w, q[0]), q[1..], left, rest, gone);
        ReceivedFirst(w, all, d.taken);
        assert all[d.taken + 1..] == tail[d.taken..];
        if d.taken > 0 { BytesFirst(all, d.taken - 1); }
      }
    }
  }

  /**
    * It stops for no other reason than an empty queue or a budget used up, and when it runs dry with the reader gone it
    * notes the loss.
    */
  lemma {:induction false} DrainRunsOn(w: Worker, queue: seq<Msg>, budget: nat, arrivals: seq<seq<Msg>>, gone: bool)
    requires budget > 0
    ensures var d, all := Drain(w, queue, budget, arrivals, gone), queue + Flat(arrivals);
            && d.taken <= |all|
            && (d.queue == [] || BatchBytes(all[..d.taken]) >= budget)
            && (d.coming == [] && BatchBytes(all) < budget && gone ==>
                  d.worker == Ended(ReceivedAll(w, all), FailedEnd))
    decreases |queue| + |Flat(arrivals)|
  {
    hide Received, Fed;
    var all := queue + Flat(arrivals);
    var q := if arrivals == [] then queue else queue + arrivals[0];
    var rest := if arrivals == [] then [] else arrivals[1..];
    assert all == q + Flat(rest);
    if q != [] {
      var tail := q[1..] + Flat(rest);
      assert all[0] == q[0] && all[1..] == tail;
      BytesFirst(all, |all| - 1);
      assert all[..|all|] == all && tail[..|tail|] == tail;
      if StopsAfter(budget, q[0]) {
        BytesFirst(all, 0);
      } else {
        var d := Drain(Received(w, q[0]), q[1..], BudgetAfter(budget, q[0]), rest, gone);
        DrainRunsOn(Received(w, q[0]), q[1..], BudgetAfter(budget, q[0]), rest, gone);
        ReceivedFirst(w, all, |all| - 1);
        BytesFirst(all, d.taken);
      }
    }
  }

  lemma {:induction false} ReceivedFirst(w: Worker, ms: seq<Msg>, n: nat)
    requires n < |ms|
    ensures ReceivedAll(w, ms[..n + 1]) == ReceivedAll(Received(w, ms[0]), ms[1..][..n])
    ensures ReceivedAll(w, ms) == ReceivedAll(Received(w, ms[0]), ms[1..])
    ensures BatchBytes(ms[..0]) == 0
  {
    hide Received;
    assert ms[..n + 1][1..] == ms[1..][..n];
  }

  lemma {:induction false} BytesFirst(ms: seq<Msg>, n: nat)
    requires n < |ms|
    ensures BatchBytes(ms[..n + 1]) == (if ms[0].Batch? then |ms[0].bytes| else 0) + BatchBytes(ms[1..][..n])
  {
    assert ms[..n + 1][1..] == ms[1..][..n];
  }

  function ReceivedAll(w: Worker, ms: seq<Msg>): Worker
    decreases |ms|
  {
    if ms == [] then w else ReceivedAll(Received(w, ms[0]), ms[1..])
  }

  /** Pop from the front until one more fits under the cap. */
  method MakeRoom<E>(was: seq<E>, cap: nat) returns (kept: seq<E>, lost: nat)
    requires cap >= 1
    ensures kept == KeepLast(was, cap - 1) && |kept| + lost == |was|
  {
    lost := 0;
    while |was| - lost >= cap
      invariant 0 <= lost <= |was|
      invariant lost > 0 ==> |was| - lost >= cap - 1
    {
      lost := lost + 1;
    }
    kept := was[lost..];
  }

  /** `SharedState` as far as the outcome is concerned. */
  class Shared {
    var outcome: Option<Outcome>

    constructor ()
      ensures outcome == None
    {
      outcome := None;
    }

    /** Publish once; later declarations are dropped. */
    method PublishOutcome(o: Outcome)
      modifies this
      ensures outcome == if old(outcome).None? then Some(o) else old(outcome)
    {
      if outcome.None? {
        outcome := Some(o);
      }
    }
  }

  /** The worker thread's object. Events are passed through; replies and the terminal grid are not part of it. */
  class SessionWorker<E> {
    var pumped: Bytes
    var feeds: nat
    var dropped: nat
    const record: bool
    const cap: nat
    var log: Bytes
    var total: nat
    var truncated: bool
    var revision: nat
    var streamEnd: Option<EndKind>
    var finalStream: Option<StreamState>
    var exited: Option<Status>
    var finalized: bool
    var queue: seq<Msg>
    var readerGone: bool
    var events: seq<E>
    var eventsDropped: nat
    const eventCap: nat
    const shared: Shared

    ghost function View(): Worker
      reads this
    {
      Worker(pumped, feeds, dropped, record, cap, log, total, truncated, revision, streamEnd, finalStream, exited,
          finalized)
    }

    constructor (record: bool, cap: nat, eventCap: nat, shared: Shared)
      ensures View() == NewWorker(record, cap) && queue == [] && events == [] && eventsDropped == 0
      ensures this.shared == shared && this.eventCap == eventCap
    {
      this.record, this.cap, this.eventCap, this.shared := record, cap, eventCap, shared;
      pumped, feeds, dropped, log, total, truncated, revision := [], 0, 0, [], 0, false, 0;
      streamEnd, finalStream, exited, finalized, queue, readerGone := None, None, None, false, [], false;
      events, eventsDropped := [], 0;
    }

    /** The batch reaches the grid and the log unless the outcome is final. */
    method Feed(bytes: Bytes)
      modifies this
      ensures View() == Fed(old(View()), bytes)
      ensures unchanged(this`queue, this`readerGone, this`events, this`eventsDropped)
    {
      if finalized {
        dropped := dropped + 1;
        return;
      }
      pumped := pumped + bytes;
      feeds := feeds + 1;
      if record {
        total := total + |bytes|;
        if !truncated {
          var room := if cap > |log| then cap - |log| else 0;
          var take := Min(room, |bytes|);
          log := log + bytes[..take];
          if take < |bytes| {
            truncated := true;
          }
        }
      }
      revision := revision + 1;
    }

    /** Oldest events make room; nothing is lost uncounted. */
    method StashEvent(e: E)
      modifies this`events, this`eventsDropped
      ensures events == KeepLast(old(events), Max(eventCap, 1) - 1) + [e]
      ensures |events| + eventsDropped == old(|events| + eventsDropped) + 1
      ensures |events| <= Max(eventCap, 1)
    {
      var kept, lost := MakeRoom(events, Max(eventCap, 1));
      events := kept + [e];
      eventsDropped := eventsDropped + lost;
    }

    /** One tick's worth of output, in order, while more keeps arriving. */
    method DrainData(arrivals: seq<seq<Msg>>)
      modifies this
      ensures var d := Drain(old(View()), old(queue), FEED_BUDGET_PER_TICK, arrivals, readerGone);
              View() == d.worker && queue == d.queue
      ensures unchanged(this`readerGone, this`events, this`eventsDropped)
    {
      hide Fed, Received, StopsAfter, BudgetAfter;
      var budget, coming := FEED_BUDGET_PER_TICK, arrivals;
      ghost var d := Drain(View(), queue, budget, coming, readerGone);
      while true
        invariant var e := Drain(View(), queue, budget, coming, readerGone); e.worker == d.worker && e.queue == d.queue
        invariant unchanged(this`readerGone, this`events, this`eventsDropped)
        decreases |queue| + |Flat(coming)|
      {
        if coming != [] {
          queue := queue + coming[0];
          coming := coming[1..];
        }
        if queue == [] {
          if coming == [] && readerGone && streamEnd.None? {
            streamEnd := Some(FailedEnd);
          }
          return;
        }
        var m := queue[0];
        TakeFront();
        if StopsAfter(budget, m) {
          return;
        }
        budget := BudgetAfter(budget, m);
      }
    }

    /** One receive: a batch is fed, a stream end is noted unless one was already. */
    method TakeFront()
      requires queue != []
      modifies this
      ensures queue == old(queue)[1..] && View() == Received(old(View()), old(queue)[0])
      ensures unchanged(this`readerGone, this`events, this`eventsDropped)
    {
      hide Fed;
      var m := queue[0];
      queue := queue[1..];
      match m {
        case Batch(bytes) =>
          Feed(bytes);
        case End(kind) =>
          if streamEnd.None? {
            streamEnd := Some(kind);
          }
      }
    }

    /** Declare the outcome once the child is gone and its stream has ended or the grace is over. */
    method PollExitState(reply: Option<Status>, graceOver: bool)
      modifies this, shared
      ensures var w := old(View());
              var seen := if !w.finalized && w.exited.None? then w.(exited := reply) else w;
              if w.finalized || seen.exited.None? || (w.streamEnd.None? && !graceOver)
              then View() == seen && shared.outcome == old(shared.outcome)
              else
                var stream := if finalStream.Some? then finalStream.value else Aborted;
                && Judges(stream, w.streamEnd, DrainExpired) && View() == Finalized(seen, stream)
                && shared.outcome == (if old(shared.outcome).None? then Some(OutcomeOf(seen, stream))
                   else old(shared.outcome))
    {
      if finalized {
        return;
      }
      if exited.None? {
        exited := reply;
      }
      if exited.None? {
        return;
      }
      if streamEnd.None? && !graceOver {
        return;
      }
      var stream := StreamOf(streamEnd, DrainExpired);
      finalized := true;
      finalStream := Some(stream);
      shared.PublishOutcome(Outcome(exited, stream, revision, |pumped|));
    }

    /** Abort: feed what was queued, in order, then reap and publish, unless the capture is already final. */
    method ShutdownAndExit(arrivals: seq<seq<Msg>>, reply: Option<Status>)
      modifies this, shared
      ensures var was := old(View());
              var w := if was.finalized then was
                  else Drain(was, old(queue), FEED_BUDGET_PER_TICK, arrivals, readerGone).worker;
              var seen := if w.exited.None? then w.(exited := reply) else w;
              var stream := if finalStream.Some? then finalStream.value else DrainExpired;
              && (!was.finalized ==> Judges(stream, seen.streamEnd, Aborted))
              && View() == (if was.finalized then seen else Finalized(seen, stream))
              && shared.outcome ==
                   (if was.finalized || old(shared.outcome).Some? then old(shared.outcome)
                       else Some(OutcomeOf(seen, stream)))
      ensures readerGone == old(readerGone)
    {
      hide Drain;
      ghost var was := View();
      if !finalized {
        DrainStaysOpen(was, queue, FEED_BUDGET_PER_TICK, arrivals, readerGone);
        DrainData(arrivals);
      }
      if exited.None? {
        exited := reply;
      }
      if !finalized {
        finalized := true;
        var stream := StreamOf(streamEnd, Aborted);
        finalStream := Some(stream);
        shared.PublishOutcome(Outcome(exited, stream, revision, |pumped|));
      }
    }
  }

  lemma {:induction false} DrainStaysOpen(w: Worker, queue: seq<Msg>, budget: nat, arrivals: seq<seq<Msg>>, gone: bool)
    requires !w.finalized && budget > 0
    ensures !Drain(w, queue, budget, arrivals, gone).worker.finalized
  {
    hide Drain, ReceivedAll;
    DrainInOrder(w, queue, budget, arrivals, gone);
    var all := queue + Flat(arrivals);
    ReceivedStaysOpen(w, all[..Drain(w, queue, budget, arrivals, gone).taken]);
    ReceivedStaysOpen(w, all);
  }

  lemma {:induction false} ReceivedNone(w: Worker)
    ensures ReceivedAll(w, []) == w
  {
  }

  lemma {:induction false} ReceivedSnoc(w: Worker, ms: seq<Msg>, n: nat)
    requires n < |ms|
    ensures ReceivedAll(w, ms[..n + 1]) == Received(ReceivedAll(w, ms[..n]), ms[n])
    decreases n
  {
    hide Received;
    if n == 0 {
      assert ms[..1] == [ms[0]] && ms[..0] == [];
      assert ReceivedAll(Received(w, ms[0]), []) == Received(w, ms[0]);
    } else {
      var rest := ms[1..];
      ReceivedSnoc(Received(w, ms[0]), rest, n - 1);
      assert ms[..n + 1][1..] == rest[..n] && ms[..n][1..] == rest[..n - 1];
    }
  }

  lemma {:induction false} ReceivedStaysOpen(w: Worker, ms: seq<Msg>)
    requires !w.finalized
    ensures !ReceivedAll(w, ms).finalized
    decreases |ms|
  {
    if ms != [] { ReceivedStaysOpen(Received(w, ms[0]), ms[1..]); }
  }

  /** Before finalization every batch received is pumped, whole and in order. */
  lemma {:induction false} ReceivedPumpsAll(w: Worker, ms: seq<Msg>)
    requires !w.finalized
    ensures ReceivedAll(w, ms).pumped == w.pumped + BytesOf(ms)
    decreases |ms|
  {
    hide ReceivedAll, BytesOf;
    if ms == [] {
      ReceivedNone(w);
      assert BytesOf([]) == [] by { BytesOfNone(); }
    } else {
      var n := |ms| - 1;
      ReceivedPumpsAll(w, ms[..n]);
      ReceivedSnoc(w, ms, n);
      ReceivedStaysOpen(w, ms[..n]);
      BytesSnoc(ms[..n], ms[n]);
      assert ms[..n + 1] == ms && ms[..n] + [ms[n]] == ms;
    }
  }

  lemma {:induction false} BytesOfNone()
    ensures BytesOf([]) == []
  {
  }
}
