/** The session child shared between threads: no system call on the pid after the reap (src/session_worker.rs). */
module SharedChildModel {
  import opened Basics

  type Status = int

  /** What a `try_wait` or `wait` call answers. */
  datatype WaitReply = Failed | StillRunning | Exited(status: Status)

  /** System calls that address the pid. */
  datatype Syscall = TryWait(reply: WaitReply) | Wait(reply: WaitReply) | SendSignal(signo: int) | SendKill

  datatype Call = Poll | Signal(signo: int) | Kill | BlockingWait

  /** What a call answers; `Issued` passes on whatever the signal or kill call itself returned. */
  datatype Result =
    | Observed(status: Option<Status>)
    | IoError
    | UnknownPid
    | NotFound
    | Issued
    | NothingToKill

  predicate Reaps(c: Syscall) {
    (c.TryWait? || c.Wait?) && c.reply.Exited?
  }

  /** The system calls so far end with the one that reaped the child. */
  predicate WasReaped(trace: seq<Syscall>) {
    trace != [] && Reaps(trace[|trace| - 1])
  }

  /** Nothing follows a reaping call. */
  predicate SilentAfterReap(trace: seq<Syscall>) {
    forall i | 0 <= i < |trace| && Reaps(trace[i]) :: i == |trace| - 1
  }

  function ReapStatus(trace: seq<Syscall>): Status
    requires WasReaped(trace)
  {
    trace[|trace| - 1].reply.status
  }

  // ---- the object, one call at a time ----

  /** What a locked call must answer once the child has been reaped. */
  function AfterReap(call: Call, pid: Option<nat>, status: Status): Result {
    match call
    case Poll => Observed(Some(status))
    case BlockingWait => Observed(Some(status))
    case Kill => NothingToKill
    case Signal(_) => if pid.None? then UnknownPid else NotFound
  }

  class SharedChild {
    const pid: Option<nat>
    var reaped: bool
    var status: Option<Status>
    ghost var trace: seq<Syscall>

    ghost predicate Valid()
      reads this
    {
      && SilentAfterReap(trace)
      && (reaped <==> WasReaped(trace))
      && status == (if WasReaped(trace) then Some(ReapStatus(trace)) else None)
    }

    constructor (pid: Option<nat>)
      ensures Valid() && !reaped && trace == []
    {
      this.pid := pid;
      reaped, status, trace := false, None, [];
    }

    method PollChild(reply: WaitReply) returns (r: Result)
      requires Valid()
      modifies this
      ensures Valid()
      ensures trace == if old(reaped) then old(trace) else old(trace) + [TryWait(reply)]
      ensures old(reaped) ==> r == AfterReap(Poll, pid, ReapStatus(old(trace)))
      ensures !old(reaped) ==>
                r == match reply
                     case Failed => IoError
                     case StillRunning => Observed(None)
                     case Exited(s) => Observed(Some(s))
    {
      if reaped {
        return Observed(status);
      }
      trace := trace + [TryWait(reply)];
      match reply {
        case Failed => r := IoError;
        case StillRunning => r := Observed(None);
        case Exited(s) =>
          reaped := true;
          status := Some(s);
          r := Observed(Some(s));
      }
    }

    method SignalLocked(signo: int) returns (r: Result)
      requires Valid()
      modifies this`trace
      ensures Valid()
      ensures trace == if pid.None? || reaped then old(trace) else old(trace) + [SendSignal(signo)]
      ensures r == if reaped || pid.None? then AfterReap(Signal(signo), pid, 0) else Issued
    {
      if pid.None? {
        return UnknownPid;
      }
      if reaped {
        return NotFound;
      }
      trace := trace + [SendSignal(signo)];
      return Issued;
    }

    method KillLocked() returns (r: Result)
      requires Valid()
      modifies this`trace
      ensures Valid()
      ensures trace == if reaped then old(trace) else old(trace) + [SendKill]
      ensures r == if reaped then NothingToKill else Issued
    {
      if reaped {
        return NothingToKill;
      }
      trace := trace + [SendKill];
      return Issued;
    }

    /** Blocks until the child ends, so the call answers a status or fails. */
    method WaitLocked(reply: WaitReply) returns (r: Result)
      requires Valid() && reply != StillRunning
      modifies this
      ensures Valid()
      ensures trace == if old(reaped) then old(trace) else old(trace) + [Wait(reply)]
      ensures old(reaped) ==> r == AfterReap(BlockingWait, pid, ReapStatus(old(trace)))
      ensures !old(reaped) ==> r == if reply.Exited? then Observed(Some(reply.status)) else IoError
    {
      if status.Some? {
        return Observed(status);
      }
      trace := trace + [Wait(reply)];
      if reply.Exited? {
        reaped := true;
        status := Some(reply.status);
        return Observed(status);
      }
      return IoError;
    }
  }

  // ---- any number of threads, interleaved inside the calls ----

  type Tid = nat

  /** Where a thread stands in its call; `late` records whether it got the lock after the reap. */
  datatype Phase =
    | Idle
    | Waiting(call: Call)
    | Holding(call: Call, late: bool)
    | GotStatus(call: Call, got: Status)
    | MarkedReaped(call: Call, got: Status)
    | Leaving(call: Call, late: bool, result: Result)

  datatype Done = Done(thread: Tid, call: Call, late: bool, result: Result)

  datatype Sys = Sys(
    pid: Option<nat>,
    lock: Option<Tid>,
    reaped: bool,
    status: Option<Status>,
    phases: map<Tid, Phase>,
    trace: seq<Syscall>,
    done: seq<Done>)

  datatype Step =
    | Begin(t: Tid, call: Call)
    | Acquire(t: Tid)
    | Act(t: Tid, reply: WaitReply)
    | MarkReaped(t: Tid)
    | StoreStatus(t: Tid)
    | Release(t: Tid)

  function PhaseOf(s: Sys, t: Tid): Phase {
    if t in s.phases then s.phases[t] else Idle
  }

  predicate Enabled(s: Sys, e: Step) {
    var p := PhaseOf(s, e.t);
    match e
    case Begin(_, _) => p.Idle?
    case Acquire(_) => p.Waiting? && s.lock.None?
    case Act(_, reply) => p.Holding? && (p.call.BlockingWait? ==> reply != StillRunning)
    case MarkReaped(_) => p.GotStatus?
    case StoreStatus(_) => p.MarkedReaped?
    case Release(_) => p.Leaving?
  }

  function At(s: Sys, t: Tid, p: Phase): Sys {
    s.(phases := s.phases[t := p])
  }

  /** The check and the system call of a thread that holds the lock. */
  function ActStep(s: Sys, t: Tid, call: Call, late: bool, reply: WaitReply): Sys {
    match call
    case Poll =>
      if s.reaped then At(s, t, Leaving(call, late, Observed(s.status)))
      else
        var s1 := s.(trace := s.trace + [TryWait(reply)]);
        if reply.Exited? then At(s1, t, GotStatus(call, reply.status))
        else At(s1, t, Leaving(call, late, if reply.Failed? then IoError else Observed(None)))
    case Signal(signo) =>
      if s.pid.None? then At(s, t, Leaving(call, late, UnknownPid))
      else if s.reaped then At(s, t, Leaving(call, late, NotFound))
      else At(s.(trace := s.trace + [SendSignal(signo)]), t, Leaving(call, late, Issued))
    case Kill =>
      if s.reaped then At(s, t, Leaving(call, late, NothingToKill))
      else At(s.(trace := s.trace + [SendKill]), t, Leaving(call, late, Issued))
    case BlockingWait =>
      if s.status.Some? then At(s, t, Leaving(call, late, Observed(s.status)))
      else
        var s1 := s.(trace := s.trace + [Wait(reply)]);
        if reply.Exited? then At(s1, t, GotStatus(call, reply.status)) else At(s1, t, Leaving(call, late, IoError))
  }

  function Next(s: Sys, e: Step): Sys
    requires Enabled(s, e)
  {
    var p := PhaseOf(s, e.t);
    match e
    case Begin(t, call) => At(s, t, Waiting(call))
    case Acquire(t) => At(s.(lock := Some(t)), t, Holding(p.call, WasReaped(s.trace)))
    case Act(t, reply) => ActStep(s, t, p.call, p.late, reply)
    case MarkReaped(t) => At(s.(reaped := true), t, MarkedReaped(p.call, p.got))
    case StoreStatus(t) => At(s.(status := Some(p.got)), t, Leaving(p.call, false, Observed(Some(p.got))))
    case Release(t) =>
      At(s.(lock := None, done := s.done + [Done(t, p.call, p.late, p.result)]), t, Idle)
  }

  function Init(pid: Option<nat>): Sys {
    Sys(pid, None, false, None, map[], [], [])
  }

  predicate Inside(p: Phase) {
    !p.Idle? && !p.Waiting?
  }

  /** What a finished or leaving call may have answered. */
  predicate AnswerOk(s: Sys, call: Call, late: bool, result: Result) {
    && (late ==> WasReaped(s.trace) && result == AfterReap(call, s.pid, ReapStatus(s.trace)))
    && (result.Observed? && result.status.Some? ==> WasReaped(s.trace) && result.status.value == ReapStatus(s.trace))
  }

  predicate PhaseOk(s: Sys, t: Tid) {
    var p := PhaseOf(s, t);
    && (Inside(p) ==> s.lock == Some(t))
    && (p.Holding? ==> p.late == WasReaped(s.trace))
    && (p.GotStatus? || p.MarkedReaped? ==> WasReaped(s.trace) && p.got == ReapStatus(s.trace))
    && (p.Leaving? ==> AnswerOk(s, p.call, p.late, p.result))
  }

  predicate InRecording(s: Sys) {
    s.lock.Some? && (PhaseOf(s, s.lock.value).GotStatus? || PhaseOf(s, s.lock.value).MarkedReaped?)
  }

  /** The flags follow the trace, except while the reaping thread is still writing them down. */
  predicate FlagsOk(s: Sys) {
    if InRecording(s) then
      s.status.None? && s.reaped == PhaseOf(s, s.lock.value).MarkedReaped?
    else
      && s.reaped == WasReaped(s.trace)
      && s.status == (if WasReaped(s.trace) then Some(ReapStatus(s.trace)) else None)
  }

  ghost predicate Inv(s: Sys) {
    && SilentAfterReap(s.trace)
    && (forall t: Tid :: PhaseOk(s, t))
    && FlagsOk(s)
    && (forall i | 0 <= i < |s.done| :: AnswerOk(s, s.done[i].call, s.done[i].late, s.done[i].result))
  }

  lemma {:induction false} TraceGrows(trace: seq<Syscall>, c: Syscall)
    requires SilentAfterReap(trace) && !WasReaped(trace)
    ensures SilentAfterReap(trace + [c]) && (WasReaped(trace + [c]) <==> Reaps(c))
  {
  }

  /** Another thread's phase survives when only the lock holder's moves, even as the trace grows before the reap. */
  lemma {:induction false} OthersKeep(s: Sys, s': Sys, t: Tid, u: Tid)
    requires PhaseOk(s, u) && u != t && PhaseOf(s', u) == PhaseOf(s, u)
    requires s'.pid == s.pid
    requires (s'.lock == s.lock && s'.trace == s.trace) || (s.lock == Some(t) || s.lock == None)
    requires s.trace == s'.trace || !WasReaped(s.trace)
    ensures PhaseOk(s', u)
  {
    hide SilentAfterReap, WasReaped, AnswerOk;
    if s'.lock == s.lock && s'.trace == s.trace {
      SameAnswers(s, s', PhaseOf(s, u));
    }
  }

  lemma {:induction false} SameAnswers(s: Sys, s': Sys, p: Phase)
    requires s'.pid == s.pid && s'.trace == s.trace
    ensures p.Leaving? ==> AnswerOk(s, p.call, p.late, p.result) == AnswerOk(s', p.call, p.late, p.result)
  {
  }

  lemma {:induction false} AnswersKeep(s: Sys, s': Sys, call: Call, late: bool, result: Result)
    requires AnswerOk(s, call, late, result) && s'.pid == s.pid
    requires s.trace == s'.trace || !WasReaped(s.trace)
    ensures AnswerOk(s', call, late, result)
  {
  }

  lemma {:induction false} ActKeeps(s: Sys, t: Tid, reply: WaitReply)
    requires Inv(s) && Enabled(s, Act(t, reply))
    ensures var s' := Next(s, Act(t, reply));
            SilentAfterReap(s'.trace) && PhaseOk(s', t) && FlagsOk(s') && (s.trace == s'.trace || !WasReaped(s.trace))
  {
    hide SilentAfterReap, WasReaped;
    var p := PhaseOf(s, t);
    assert PhaseOk(s, t);
    assert s.lock == Some(t) && !InRecording(s);
    if !WasReaped(s.trace) {
      TraceGrows(s.trace, TryWait(reply));
      TraceGrows(s.trace, Wait(reply));
      TraceGrows(s.trace, SendKill);
      TraceGrows(s.trace, SendSignal(if p.call.Signal? then p.call.signo else 0));
    }
  }

  lemma {:induction false} OwnKeeps(s: Sys, e: Step)
    requires Inv(s) && Enabled(s, e) && !e.Act?
    ensures var s' := Next(s, e); s'.trace == s.trace && PhaseOk(s', e.t) && FlagsOk(s')
  {
    hide SilentAfterReap, WasReaped;
    assert PhaseOk(s, e.t);
    if s.lock.Some? { assert PhaseOk(s, s.lock.value); }
  }

  lemma {:induction false} NextShape(s: Sys, e: Step, u: Tid)
    requires Enabled(s, e)
    ensures var s' := Next(s, e);
            && s'.pid == s.pid
            && (u != e.t ==> PhaseOf(s', u) == PhaseOf(s, u))
            && (e.Release? ==> s'.done == s.done + [Done(e.t, PhaseOf(s, e.t).call, PhaseOf(s, e.t).late,
                 PhaseOf(s, e.t).result)])
            && (!e.Release? ==> s'.done == s.done)
            && (e.Begin? ==> s'.lock == s.lock && s'.trace == s.trace)
  {
  }

  lemma {:induction false} StepKeeps(s: Sys, e: Step)
    requires Inv(s) && Enabled(s, e)
    ensures Inv(Next(s, e))
  {
    hide SilentAfterReap, WasReaped, AnswerOk, FlagsOk, Next;
    var s' := Next(s, e);
    assert PhaseOk(s, e.t);
    NextShape(s, e, e.t);
    if e.Act? { ActKeeps(s, e.t, e.reply); } else { OwnKeeps(s, e); }
    forall u: Tid ensures PhaseOk(s', u) {
      NextShape(s, e, u);
      if u != e.t { OthersKeep(s, s', e.t, u); }
    }
    forall i | 0 <= i < |s'.done| ensures AnswerOk(s', s'.done[i].call, s'.done[i].late, s'.done[i].result) {
      var d := s'.done[i];
      assert i < |s.done| ==> d == s.done[i];
      AnswersKeep(s, s', d.call, d.late, d.result);
    }
  }

  predicate RunEnabled(s: Sys, es: seq<Step>)
    decreases |es|
  {
    es == [] || (Enabled(s, es[0]) && RunEnabled(Next(s, es[0]), es[1..]))
  }

  function Run(s: Sys, es: seq<Step>): Sys
    requires RunEnabled(s, es)
    decreases |es|
  {
    if es == [] then s else Run(Next(s, es[0]), es[1..])
  }

  lemma {:induction false} RunKeeps(s: Sys, es: seq<Step>)
    requires Inv(s) && RunEnabled(s, es)
    ensures Inv(Run(s, es))
    decreases |es|
  {
    hide Inv, Next, Enabled;
    if es != [] {
      StepKeeps(s, es[0]);
      RunKeeps(Next(s, es[0]), es[1..]);
    }
  }

  /**
    * In every interleaving of poll, signal, kill and wait by any number of threads: no system call addresses the pid
    * after the one that reaped it, every status ever answered is the reaped one, and every call that got the lock
    * after the reap answers from it without touching the pid.
    */
  lemma {:induction false} NoSyscallAfterReap(pid: Option<nat>, es: seq<Step>)
    requires RunEnabled(Init(pid), es)
    ensures var s := Run(Init(pid), es);
            && SilentAfterReap(s.trace)
            && forall i | 0 <= i < |s.done| :: AnswerOk(s, s.done[i].call, s.done[i].late, s.done[i].result)
  {
    hide Run, RunEnabled;
    assert Inv(Init(pid));
    RunKeeps(Init(pid), es);
  }

  /** The one system call a live call makes. */
  function CallMade(call: Call, reply: WaitReply): Syscall {
    match call
    case Poll => TryWait(reply)
    case Signal(signo) => SendSignal(signo)
    case Kill => SendKill
    case BlockingWait => Wait(reply)
  }

  /** What it answers: the status it found, the error, that the child still runs, or that the call went out. */
  function AnswerMade(call: Call, reply: WaitReply): Result {
    if call.Signal? || call.Kill? then Issued
    else match reply
      case Failed => IoError
      case StillRunning => Observed(None)
      case Exited(status) => Observed(Some(status))
  }

  /**
    * In every interleaving a thread that holds the lock before the reap makes exactly one system call, that of its
    * call, and answers with what the system said; only a signal without a known pid makes none. After the reap it makes
    * none.
    */
  lemma {:induction false} LiveCallsAct(pid: Option<nat>, es: seq<Step>, t: Tid, reply: WaitReply)
    requires RunEnabled(Init(pid), es) && Enabled(Run(Init(pid), es), Act(t, reply))
    ensures var s := Run(Init(pid), es);
            var call := PhaseOf(s, t).call;
            var live := !WasReaped(s.trace) && !(call.Signal? && pid.None?);
            var h := Next(s, Act(t, reply));
            && h.trace == s.trace + (if live then [CallMade(call, reply)] else [])
            && (live && Reaps(CallMade(call, reply)) ==> PhaseOf(h, t) == GotStatus(call, reply.status))
            && (live && !Reaps(CallMade(call, reply)) ==>
                  PhaseOf(h, t).Leaving? && PhaseOf(h, t).result == AnswerMade(call, reply))
  {
    hide Run, RunEnabled;
    assert Inv(Init(pid));
    RunKeeps(Init(pid), es);
    RunKeepsPid(Init(pid), es);
    var s := Run(Init(pid), es);
    assert PhaseOk(s, t);
  }

  lemma {:induction false} RunKeepsPid(s: Sys, es: seq<Step>)
    requires RunEnabled(s, es)
    ensures Run(s, es).pid == s.pid
    decreases |es|
  {
    hide Next, Enabled;
    if es != [] {
      NextShape(s, es[0], 0);
      RunKeepsPid(Next(s, es[0]), es[1..]);
    }
  }

  /** The reaping thread writes the status down and answers it. */
  lemma {:induction false} ReapIsRecorded(s: Sys, t: Tid)
    requires Enabled(s, MarkReaped(t))
    ensures var s1 := Next(s, MarkReaped(t));
            && Enabled(s1, StoreStatus(t))
            && var s2 := Next(s1, StoreStatus(t));
               && s2.reaped && s2.status == Some(PhaseOf(s, t).got) && s2.trace == s.trace
               && PhaseOf(s2, t) == Leaving(PhaseOf(s, t).call, false, Observed(Some(PhaseOf(s, t).got)))
  {
  }
}
