/**
 The single encoding slot of the semantic router: the blocks it runs under its lock,
 and the circuit that opens after three timeouts in a row.
 */
module EncodingSlot {
  import opened Wrappers

  datatype Status = Idle | Inflight | TimeoutPending | Finished | CancelConfirmed

  datatype Slot = Slot(
    inflight: bool,
    timeoutPending: bool,
    consecutiveTimeouts: nat,
    openedAt: real,
    timedOut: set<nat>,
    status: Status,
    lateCompletions: nat,
    lastCompletionLate: bool,
    probeInflight: bool)

  const NEW_SLOT := Slot(false, false, 0, 0.0, {}, Idle, 0, false, false)

  /** Timeouts in a row that open the circuit. */
  const TRIP: nat := 3

  datatype Refusal = SlotUnavailable | CircuitOpen | RecoveryPending

  /** How a future ended. */
  datatype Outcome = Outcome(cancelled: bool, failed: bool)

  datatype Report = Report(
    status: Status,
    inflight: bool,
    timeoutPending: bool,
    consecutiveTimeouts: nat,
    circuitOpen: bool,
    probeReady: bool,
    probeInflight: bool,
    lateCompletions: nat,
    lastCompletionLate: bool)

  predicate Tripped(s: Slot) {
    s.consecutiveTimeouts >= TRIP
  }

  predicate Open(s: Slot, now: real, circuitSeconds: real) {
    Tripped(s) && now - s.openedAt < circuitSeconds
  }

  // ----- What each block does -----

  function AdmitStep(s: Slot, now: real, circuitSeconds: real): (Option<Refusal>, Slot) {
    if s.timeoutPending || s.inflight then (Some(SlotUnavailable), s)
    else if Open(s, now, circuitSeconds) then (Some(CircuitOpen), s)
    else (None, s.(probeInflight := Tripped(s), inflight := true, status := Inflight))
  }

  function ExpireStep(s: Slot, id: nat, now: real): Slot {
    var marked :=
      if !s.inflight
      then s.(lateCompletions := s.lateCompletions + 1, lastCompletionLate := true, status := Finished)
      else s.(timedOut := s.timedOut + {id}, timeoutPending := true, status := TimeoutPending);
    var counted := marked.(consecutiveTimeouts := s.consecutiveTimeouts + 1);
    if Tripped(counted) then counted.(openedAt := now) else counted
  }

  predicate Succeeds(s: Slot, id: nat, outcome: Outcome) {
    id !in s.timedOut && !outcome.cancelled && !outcome.failed
  }

  function FinishStep(s: Slot, id: nat, outcome: Outcome, now: real): Slot {
    var late := id in s.timedOut;
    var freed := s.(timedOut := s.timedOut - {id}, inflight := false, timeoutPending := false, probeInflight := false,
                    lastCompletionLate := late,
                    status := if outcome.cancelled then CancelConfirmed else Finished,
                    lateCompletions := s.lateCompletions + if late then 1 else 0);
    if Succeeds(s, id, outcome) then freed.(consecutiveTimeouts := 0, openedAt := 0.0)
    else if s.probeInflight then freed.(openedAt := now)
    else freed
  }

  function ConfirmStep(s: Slot): (Option<Refusal>, Slot) {
    if s.inflight || s.timeoutPending then (Some(RecoveryPending), s)
    else (None, s.(consecutiveTimeouts := 0, openedAt := 0.0, status := Idle))
  }

  function ReportOf(s: Slot, now: real, circuitSeconds: real): Report {
    Report(s.status, s.inflight, s.timeoutPending, s.consecutiveTimeouts, Open(s, now, circuitSeconds),
           Tripped(s) && now - s.openedAt >= circuitSeconds && !s.probeInflight,
           s.probeInflight, s.lateCompletions, s.lastCompletionLate)
  }

  /** The router's fields; each method is one block under its lock. */
  class Router {
    const circuitSeconds: real
    var inflight: bool
    var timeoutPending: bool
    var consecutiveTimeouts: nat
    var openedAt: real
    var timedOut: set<nat>
    var status: Status
    var lateCompletions: nat
    var lastCompletionLate: bool
    var probeInflight: bool

    constructor (circuitSeconds: real)
      ensures View() == NEW_SLOT
      ensures this.circuitSeconds == circuitSeconds
    {
      this.circuitSeconds := circuitSeconds;
      inflight, timeoutPending, consecutiveTimeouts, openedAt := false, false, 0, 0.0;
      timedOut, status, lateCompletions, lastCompletionLate := {}, Idle, 0, false;
      probeInflight := false;
    }

    function View(): Slot
      reads this
    {
      Slot(inflight, timeoutPending, consecutiveTimeouts, openedAt, timedOut, status,
           lateCompletions, lastCompletionLate, probeInflight)
    }

    /** The first block of `route`: take the slot, or refuse. */
    method Admit(now: real) returns (refusal: Option<Refusal>)
      modifies this
      ensures (refusal, View()) == AdmitStep(old(View()), now, circuitSeconds)
    {
      if timeoutPending || inflight {
        return Some(SlotUnavailable);
      }
      var elapsed := now - openedAt;
      if consecutiveTimeouts >= TRIP && elapsed < circuitSeconds {
        return Some(CircuitOpen);
      }
      probeInflight := consecutiveTimeouts >= TRIP;
      inflight := true;
      status := Inflight;
      refusal := None;
    }

    /** The block of the timeout handler of `route`. */
    method Expire(id: nat, now: real)
      modifies this
      ensures View() == ExpireStep(old(View()), id, now)
    {
      var callbackAlreadyFinished := !inflight;
      if callbackAlreadyFinished {
        lateCompletions := lateCompletions + 1;
        lastCompletionLate := true;
        status := Finished;
      } else {
        timedOut := timedOut + {id};
        timeoutPending := true;
        status := TimeoutPending;
      }
      consecutiveTimeouts := consecutiveTimeouts + 1;
      if consecutiveTimeouts >= TRIP {
        openedAt := now;
      }
    }

    /** The done-callback of a future. */
    method Finish(id: nat, outcome: Outcome, now: real)
      modifies this
      ensures View() == FinishStep(old(View()), id, outcome, now)
    {
      var late := id in timedOut;
      var wasProbe := probeInflight;
      timedOut := timedOut - {id};
      inflight := false;
      timeoutPending := false;
      probeInflight := false;
      lastCompletionLate := late;
      status := if outcome.cancelled then CancelConfirmed else Finished;
      if late {
        lateCompletions := lateCompletions + 1;
      }
      var succeeded := !late && !outcome.cancelled && !outcome.failed;
      if succeeded {
        consecutiveTimeouts := 0;
        openedAt := 0.0;
      } else if wasProbe {
        openedAt := now;
      }
    }

    method ConfirmServiceRecovery() returns (refusal: Option<Refusal>)
      modifies this
      ensures (refusal, View()) == ConfirmStep(old(View()))
    {
      if inflight || timeoutPending {
        return Some(RecoveryPending);
      }
      consecutiveTimeouts := 0;
      openedAt := 0.0;
      status := Idle;
      refusal := None;
    }

    method State(now: real) returns (report: Report)
      ensures report == ReportOf(View(), now, circuitSeconds)
    {
      var elapsed := now - openedAt;
      report := Report(status, inflight, timeoutPending, consecutiveTimeouts,
                       consecutiveTimeouts >= TRIP && elapsed < circuitSeconds,
                       consecutiveTimeouts >= TRIP && elapsed >= circuitSeconds && !probeInflight,
                       probeInflight, lateCompletions, lastCompletionLate);
    }
  }
}

/**
 Any number of callers sharing one slot, step by step: callers entering, submitting, timing out
 (also long after their encoding ended) and cancelling; encodings starting and ending; callbacks;
 and recovery confirmations. Encodings are numbered in the order they are admitted.
 */
module EncodingRuns {
  import opened EncodingSlot

  datatype Phase = Admitted | Queued | Running | Ended(outcome: Outcome)

  /** Whether the caller still waits, is between its timeout block and its cancel, or has left. */
  datatype Stage = Waiting | Expired | Gone

  datatype Encoding = Encoding(phase: Phase, stage: Stage, called: bool)

  datatype Entry =
    | Started(id: nat, at: real, streak: nat)
    | TimedOut(id: nat, at: real, stray: bool)
    | ProbeFailed(id: nat, at: real)
    | Succeeded(id: nat)
    | Confirmed

  datatype System = System(slot: Slot, encodings: seq<Encoding>, clock: real, log: seq<Entry>)

  datatype Move =
    | Enter(now: real)
    | Submit(id: nat)
    | Begin(id: nat)
    | End(id: nat, failed: bool)
    | Expire(id: nat, now: real)
    | Cancel(id: nat)
    | Callback(id: nat, now: real)
    | Confirm

  predicate TellsTime(m: Move) {
    m.Enter? || m.Expire? || m.Callback?
  }

  /** A clock never goes back; a callback runs once, after its future ended. */
  predicate Enabled(s: System, m: Move) {
    && (TellsTime(m) ==> s.clock <= m.now)
    && (!m.Enter? && !m.Confirm? ==>
          && m.id < |s.encodings|
          && var e := s.encodings[m.id];
             match m
             case Submit(_) => e.phase.Admitted?
             case Begin(_) => e.phase.Queued?
             case End(_, _) => e.phase.Running?
             case Expire(_, _) => !e.phase.Admitted? && e.stage.Waiting?
             case Cancel(_) => e.stage.Expired?
             case Callback(_, _) => e.phase.Ended? && !e.called
             case _ => true)
  }

  /** A timeout block that runs after its own encoding's callback while another encoding holds the slot. */
  predicate Stray(s: System, id: nat)
    requires id < |s.encodings|
  {
    s.encodings[id].called && s.slot.inflight
  }

  function Next(s: System, m: Move, circuitSeconds: real): System {
    if !Enabled(s, m) then s else
    match m
    case Enter(now) =>
      var (refusal, slot) := AdmitStep(s.slot, now, circuitSeconds);
      if refusal.Some? then s.(clock := now)
      else System(slot, s.encodings + [Encoding(Admitted, Waiting, false)], now,
                  s.log + [Started(|s.encodings|, now, s.slot.consecutiveTimeouts)])
    case Submit(id) => s.(encodings := s.encodings[id := s.encodings[id].(phase := Queued)])
    case Begin(id) => s.(encodings := s.encodings[id := s.encodings[id].(phase := Running)])
    case End(id, failed) =>
      s.(encodings := s.encodings[id := s.encodings[id].(phase := Ended(Outcome(false, failed)))])
    case Expire(id, now) =>
      System(ExpireStep(s.slot, id, now), s.encodings[id := s.encodings[id].(stage := Expired)], now,
             s.log + [TimedOut(id, now, Stray(s, id))])
    case Cancel(id) =>
      var e := s.encodings[id];
      var phase := if e.phase.Queued? then Ended(Outcome(true, false)) else e.phase;
      s.(encodings := s.encodings[id := e.(stage := Gone, phase := phase)])
    case Callback(id, now) =>
      var outcome := s.encodings[id].phase.outcome;
      System(FinishStep(s.slot, id, outcome, now), s.encodings[id := s.encodings[id].(called := true)], now,
             if Succeeds(s.slot, id, outcome) then s.log + [Succeeded(id)]
             else if s.slot.probeInflight then s.log + [ProbeFailed(id, now)]
             else s.log)
    case Confirm =>
      var (refusal, slot) := ConfirmStep(s.slot);
      if refusal.Some? then s else s.(slot := slot, log := s.log + [Confirmed])
  }

  function Run(start: real, moves: seq<Move>, circuitSeconds: real): System {
    if moves == [] then System(NEW_SLOT, [], start, [])
    else Next(Run(start, moves[..|moves| - 1], circuitSeconds), moves[|moves| - 1], circuitSeconds)
  }

  // ----- What a log says -----

  /** Timeouts since the last success or confirmed recovery. */
  function Streak(log: seq<Entry>): nat {
    if log == [] then 0
    else
      var e := log[|log| - 1];
      if e.Succeeded? || e.Confirmed? then 0
      else Streak(log[..|log| - 1]) + if e.TimedOut? then 1 else 0
  }

  function Timeouts(log: seq<Entry>): nat {
    if log == [] then 0 else Timeouts(log[..|log| - 1]) + if log[|log| - 1].TimedOut? then 1 else 0
  }

  function Outstanding(s: System): set<nat> {
    set i | 0 <= i < |s.encodings| && !s.encodings[i].called
  }

  // ----- Invariants -----

  predicate Exclusive(s: System) {
    && (forall i, j :: 0 <= i < j < |s.encodings| ==> s.encodings[i].called || s.encodings[j].called)
    && (s.slot.inflight <==> exists i :: 0 <= i < |s.encodings| && !s.encodings[i].called)
    && (s.slot.timeoutPending ==> s.slot.inflight)
    && (s.slot.probeInflight ==> s.slot.inflight)
  }

  /** The status names the state of the slot. */
  predicate Telling(s: Slot) {
    && (s.status.TimeoutPending? <==> s.timeoutPending)
    && (s.status.Inflight? <==> s.inflight && !s.timeoutPending)
  }

  predicate Grave(e: Entry) {
    e.TimedOut? || e.ProbeFailed?
  }

  predicate Cooling(s: System) {
    && s.slot.consecutiveTimeouts == Streak(s.log)
    && (forall i :: 0 <= i < |s.log| && Grave(s.log[i]) ==> s.log[i].at <= s.clock)
    && (Tripped(s.slot) ==> forall i :: 0 <= i < |s.log| && Grave(s.log[i]) ==> s.log[i].at <= s.slot.openedAt)
  }

  predicate Spaced(log: seq<Entry>, circuitSeconds: real) {
    forall i, j :: 0 <= i < j < |log| && Grave(log[i]) && log[j].Started? && log[j].streak >= TRIP ==>
      log[j].at >= log[i].at + circuitSeconds
  }

  predicate LoggedStray(log: seq<Entry>, id: nat) {
    exists i :: 0 <= i < |log| && log[i].TimedOut? && log[i].id == id && log[i].stray
  }

  /** Marks and logged timeouts belong to callers that ran their timeout block. */
  predicate Handled(s: System) {
    && (forall id :: id in s.slot.timedOut ==> id < |s.encodings| && !s.encodings[id].stage.Waiting?)
    && (forall i :: 0 <= i < |s.log| && s.log[i].TimedOut? ==>
          s.log[i].id < |s.encodings| && !s.encodings[s.log[i].id].stage.Waiting?)
  }

  predicate MarkedIffStray(s: System, id: nat)
    requires id < |s.encodings|
  {
    id in s.slot.timedOut && s.encodings[id].called <==> LoggedStray(s.log, id)
  }

  predicate Accounted(s: System) {
    && Counted(s.slot, s.log)
    && Handled(s)
    && forall id :: 0 <= id < |s.encodings| ==> MarkedIffStray(s, id)
  }

  lemma ExclusiveStep(s: System, m: Move, circuitSeconds: real)
    requires Exclusive(s)
    ensures Exclusive(Next(s, m, circuitSeconds))
  {
    var t := Next(s, m, circuitSeconds);
    if Enabled(s, m) {
      if m.Enter? {
        if AdmitStep(s.slot, m.now, circuitSeconds).0.None? {
          assert !t.encodings[|s.encodings|].called;
        }
      } else if !m.Confirm? {
        assert forall i :: 0 <= i < |s.encodings| && i != m.id ==> t.encodings[i] == s.encodings[i];
        if m.Callback? {
          assert !s.encodings[m.id].called;
        } else {
          assert t.encodings[m.id].called == s.encodings[m.id].called;
        }
      }
    }
  }

  lemma TellingStep(s: System, m: Move, circuitSeconds: real)
    requires Exclusive(s) && Telling(s.slot)
    ensures Telling(Next(s, m, circuitSeconds).slot)
  {
  }

  lemma CoolingStep(s: System, m: Move, circuitSeconds: real)
    requires Exclusive(s) && Cooling(s)
    ensures Cooling(Next(s, m, circuitSeconds))
  {
    var t := Next(s, m, circuitSeconds);
    if t.log != s.log {
      assert t.log[..|t.log| - 1] == s.log;
    }
  }

  lemma SpacedStep(s: System, m: Move, circuitSeconds: real)
    requires Cooling(s) && Spaced(s.log, circuitSeconds)
    ensures Spaced(Next(s, m, circuitSeconds).log, circuitSeconds)
  {
    var t := Next(s, m, circuitSeconds);
    if t.log != s.log {
      assert t.log[..|t.log| - 1] == s.log;
    }
  }

  lemma HandledStep(s: System, m: Move, circuitSeconds: real)
    requires Exclusive(s) && Handled(s)
    ensures Handled(Next(s, m, circuitSeconds))
  {
    var t := Next(s, m, circuitSeconds);
    assert forall id :: 0 <= id < |s.encodings| && !s.encodings[id].stage.Waiting? ==> !t.encodings[id].stage.Waiting?;
    if t.log != s.log {
      assert t.log == s.log + [t.log[|s.log|]];
    }
  }

  predicate Counted(slot: Slot, log: seq<Entry>) {
    Timeouts(log) == slot.lateCompletions + |slot.timedOut|
  }

  lemma TimeoutsGrow(log: seq<Entry>, e: Entry)
    ensures Timeouts(log + [e]) == Timeouts(log) + if e.TimedOut? then 1 else 0
  {
    assert (log + [e])[..|log|] == log;
  }

  lemma CountExpire(slot: Slot, log: seq<Entry>, id: nat, now: real, stray: bool)
    requires Counted(slot, log) && id !in slot.timedOut
    ensures Counted(ExpireStep(slot, id, now), log + [TimedOut(id, now, stray)])
  {
    TimeoutsGrow(log, TimedOut(id, now, stray));
  }

  lemma CountFinish(slot: Slot, id: nat, outcome: Outcome, now: real)
    ensures var after := FinishStep(slot, id, outcome, now);
            after.lateCompletions + |after.timedOut| == slot.lateCompletions + |slot.timedOut|
  {
    if id !in slot.timedOut {
      assert slot.timedOut - {id} == slot.timedOut;
    }
  }

  lemma CountCallback(slot: Slot, log: seq<Entry>, id: nat, outcome: Outcome, now: real)
    requires Counted(slot, log)
    ensures Counted(FinishStep(slot, id, outcome, now), log)
    ensures Counted(FinishStep(slot, id, outcome, now), log + [Succeeded(id)])
    ensures Counted(FinishStep(slot, id, outcome, now), log + [ProbeFailed(id, now)])
  {
    CountFinish(slot, id, outcome, now);
    TimeoutsGrow(log, Succeeded(id));
    TimeoutsGrow(log, ProbeFailed(id, now));
  }

  lemma CountOther(s: System, m: Move, circuitSeconds: real)
    requires Counted(s.slot, s.log) && (m.Enter? || m.Confirm?)
    ensures Counted(Next(s, m, circuitSeconds).slot, Next(s, m, circuitSeconds).log)
  {
    if m.Enter? {
      TimeoutsGrow(s.log, Started(|s.encodings|, m.now, s.slot.consecutiveTimeouts));
    } else {
      TimeoutsGrow(s.log, Confirmed);
    }
  }

  lemma CountStep(s: System, m: Move, circuitSeconds: real)
    requires Handled(s) && Counted(s.slot, s.log)
    ensures Counted(Next(s, m, circuitSeconds).slot, Next(s, m, circuitSeconds).log)
  {
    if !Enabled(s, m) {
    } else if m.Expire? {
      CountExpire(s.slot, s.log, m.id, m.now, Stray(s, m.id));
    } else if m.Callback? {
      CountCallback(s.slot, s.log, m.id, s.encodings[m.id].phase.outcome, m.now);
    } else if m.Enter? || m.Confirm? {
      CountOther(s, m, circuitSeconds);
    }
  }

  lemma LogGrows(log: seq<Entry>, e: Entry, id: nat)
    ensures LoggedStray(log + [e], id) <==> LoggedStray(log, id) || (e.TimedOut? && e.id == id && e.stray)
  {
    var grown := log + [e];
    assert grown[|log|] == e;
    if LoggedStray(log, id) {
      var i :| 0 <= i < |log| && log[i].TimedOut? && log[i].id == id && log[i].stray;
      assert grown[i] == log[i];
    }
  }

  lemma StrayStep(s: System, m: Move, circuitSeconds: real, id: nat)
    requires Exclusive(s) && Handled(s) && id < |Next(s, m, circuitSeconds).encodings|
    requires id < |s.encodings| ==> MarkedIffStray(s, id)
    ensures MarkedIffStray(Next(s, m, circuitSeconds), id)
  {
    var t := Next(s, m, circuitSeconds);
    if t.log != s.log {
      LogGrows(s.log, t.log[|s.log|], id);
      assert t.log == s.log + [t.log[|s.log|]];
    }
    if Enabled(s, m) && m.Callback? && m.id == id && LoggedStray(s.log, id) {
      assert false;
    }
  }

  lemma AccountedStep(s: System, m: Move, circuitSeconds: real)
    requires Exclusive(s) && Accounted(s)
    ensures Accounted(Next(s, m, circuitSeconds))
  {
    HandledStep(s, m, circuitSeconds);
    CountStep(s, m, circuitSeconds);
    forall id | 0 <= id < |Next(s, m, circuitSeconds).encodings|
      ensures MarkedIffStray(Next(s, m, circuitSeconds), id)
    {
      StrayStep(s, m, circuitSeconds, id);
    }
  }

  lemma {:induction false} Invariants(start: real, moves: seq<Move>, circuitSeconds: real)
    ensures var s := Run(start, moves, circuitSeconds);
            Exclusive(s) && Telling(s.slot) && Cooling(s) && Spaced(s.log, circuitSeconds) && Accounted(s)
  {
    if moves == [] {
    } else {
      var init := moves[..|moves| - 1];
      Invariants(start, init, circuitSeconds);
      var s := Run(start, init, circuitSeconds);
      ExclusiveStep(s, moves[|moves| - 1], circuitSeconds);
      TellingStep(s, moves[|moves| - 1], circuitSeconds);
      CoolingStep(s, moves[|moves| - 1], circuitSeconds);
      SpacedStep(s, moves[|moves| - 1], circuitSeconds);
      AccountedStep(s, moves[|moves| - 1], circuitSeconds);
    }
  }

  // ----- Laws -----

  /** The encodings whose callback has not run number one if the slot is taken and none otherwise. */
  lemma OneAtATime(start: real, moves: seq<Move>, circuitSeconds: real)
    ensures var s := Run(start, moves, circuitSeconds);
            && |Outstanding(s)| == (if s.slot.inflight then 1 else 0)
            && (s.slot.timeoutPending ==> s.slot.inflight)
            && (s.slot.probeInflight ==> s.slot.inflight)
            && Telling(s.slot)
  {
    Invariants(start, moves, circuitSeconds);
    var s := Run(start, moves, circuitSeconds);
    if s.slot.inflight {
      var i :| 0 <= i < |s.encodings| && !s.encodings[i].called;
      assert Outstanding(s) == {i};
    } else {
      assert Outstanding(s) == {};
    }
  }

  /** The counter is the number of timeouts since the last success or confirmed recovery. */
  lemma {:induction false} CounterIsStreak(start: real, moves: seq<Move>, circuitSeconds: real)
    ensures var s := Run(start, moves, circuitSeconds); s.slot.consecutiveTimeouts == Streak(s.log)
  {
    Invariants(start, moves, circuitSeconds);
  }

  /**
   An encoding admitted with the circuit tripped starts `circuitSeconds` or more after every
   earlier timeout and failed probe.
   */
  lemma ProbesWait(start: real, moves: seq<Move>, circuitSeconds: real, i: nat, j: nat)
    requires var log := Run(start, moves, circuitSeconds).log;
             i < j < |log| && (log[i].TimedOut? || log[i].ProbeFailed?) && log[j].Started? && log[j].streak >= TRIP
    ensures var log := Run(start, moves, circuitSeconds).log; log[j].at >= log[i].at + circuitSeconds
  {
    Invariants(start, moves, circuitSeconds);
    var log := Run(start, moves, circuitSeconds).log;
    assert Grave(log[i]);
  }

  /**
   The slot is never lost: once all callbacks ran, a caller is refused only while the circuit
   is open, and the report foretells it.
   */
  lemma NeverStuck(start: real, moves: seq<Move>, circuitSeconds: real, now: real)
    requires Outstanding(Run(start, moves, circuitSeconds)) == {}
    ensures var slot := Run(start, moves, circuitSeconds).slot;
            var report := ReportOf(slot, now, circuitSeconds);
            var (refusal, after) := AdmitStep(slot, now, circuitSeconds);
            && (refusal.Some? <==> report.circuitOpen)
            && (refusal.None? && after.probeInflight <==> report.probeReady)
            && ConfirmStep(slot).0.None?
  {
    Invariants(start, moves, circuitSeconds);
    var s := Run(start, moves, circuitSeconds);
    assert forall i :: 0 <= i < |s.encodings| && !s.encodings[i].called ==> i in Outstanding(s);
  }

  /** Every timeout is either counted as a late completion or still marked. */
  lemma TimeoutsAccounted(start: real, moves: seq<Move>, circuitSeconds: real)
    ensures var s := Run(start, moves, circuitSeconds);
            Timeouts(s.log) == s.slot.lateCompletions + |s.slot.timedOut|
  {
    Invariants(start, moves, circuitSeconds);
  }

  /**
   The marks are marks of outstanding encodings exactly as long as no timeout block ran after its own
   callback while another encoding held the slot.
   */
  lemma MarksAreOutstandingIff(start: real, moves: seq<Move>, circuitSeconds: real)
    ensures var s := Run(start, moves, circuitSeconds);
            s.slot.timedOut <= Outstanding(s) <==>
              forall i :: 0 <= i < |s.log| && s.log[i].TimedOut? ==> !s.log[i].stray
  {
    Invariants(start, moves, circuitSeconds);
    var s := Run(start, moves, circuitSeconds);
    forall id | id in s.slot.timedOut && id !in Outstanding(s)
      ensures LoggedStray(s.log, id)
    {
      assert MarkedIffStray(s, id);
    }
    forall i | 0 <= i < |s.log| && s.log[i].TimedOut? && s.log[i].stray
      ensures s.log[i].id in s.slot.timedOut - Outstanding(s)
    {
      assert LoggedStray(s.log, s.log[i].id);
      assert MarkedIffStray(s, s.log[i].id);
    }
  }

  /** Such a block exists: it leaves the mark of a finished encoding and stalls the caller that holds the slot. */
  lemma StrayTimeoutRun(circuitSeconds: real)
    ensures var s :=
            Run(0.0, [Enter(1.0), Submit(0), Begin(0), End(0, false), Callback(0, 2.0), Enter(2.0), Expire(0, 3.0)],
                         circuitSeconds);
            s.slot.timedOut == {0} && Outstanding(s) == {1} && s.slot.timeoutPending
  {
    var m1 := [] + [Enter(1.0)];
    var m2 := m1 + [Submit(0)];
    var m3 := m2 + [Begin(0)];
    var m4 := m3 + [End(0, false)];
    var m5 := m4 + [Callback(0, 2.0)];
    var m6 := m5 + [Enter(2.0)];
    RunThen(0.0, [], Enter(1.0), circuitSeconds);
    RunThen(0.0, m1, Submit(0), circuitSeconds);
    RunThen(0.0, m2, Begin(0), circuitSeconds);
    RunThen(0.0, m3, End(0, false), circuitSeconds);
    RunThen(0.0, m4, Callback(0, 2.0), circuitSeconds);
    assert Run(0.0, m5, circuitSeconds).encodings == [Encoding(Ended(Outcome(false, false)), Waiting, true)];
    RunThen(0.0, m5, Enter(2.0), circuitSeconds);
    RunThen(0.0, m6, Expire(0, 3.0), circuitSeconds);
    assert m6 + [Expire(0, 3.0)] ==
           [Enter(1.0), Submit(0), Begin(0), End(0, false), Callback(0, 2.0), Enter(2.0), Expire(0, 3.0)];
  }

  lemma RunThen(start: real, moves: seq<Move>, m: Move, circuitSeconds: real)
    ensures Run(start, moves + [m], circuitSeconds) == Next(Run(start, moves, circuitSeconds), m, circuitSeconds)
  {
    var run := moves + [m];
    assert run[..|run| - 1] == moves && run[|run| - 1] == m;
  }
}
