/**
 What callers and callbacks do to the slot and the circuit, said of how the encodings went: whom the slot
 admits, what a timeout costs, and which callbacks close or reopen the circuit.
 */
module EncodingCallbacks {
  import opened Wrappers
  import opened EncodingSlot
  import opened EncodingRuns

  /** Three timeouts in a row open the circuit for its time. */
  predicate CircuitClosedTo(s: System, now: real, circuitSeconds: real) {
    s.slot.consecutiveTimeouts >= 3 && now < s.slot.openedAt + circuitSeconds
  }

  /** The encoding ended without an error, without being cancelled, and before its caller gave it up. */
  predicate EndedClean(s: System, id: nat)
    requires id < |s.encodings|
  {
    s.encodings[id].phase == Ended(Outcome(false, false)) && id !in s.slot.timedOut
  }

  /**
   A caller is refused while the slot is taken or the circuit open, and else takes it, as a
   probe after three timeouts.
   */
  lemma EnterDecides(s: System, now: real, circuitSeconds: real)
    requires Enabled(s, Enter(now))
    ensures var t, taken := Next(s, Enter(now), circuitSeconds), s.slot.inflight || s.slot.timeoutPending;
            var refusal := AdmitStep(s.slot, now, circuitSeconds).0;
            if taken then refusal == Some(SlotUnavailable) && t == s.(clock := now)
            else if CircuitClosedTo(s, now, circuitSeconds) then refusal == Some(CircuitOpen) && t == s.(clock := now)
            else
              && refusal == None
              && t.encodings == s.encodings + [Encoding(Admitted, Waiting, false)]
              && t.slot ==
                 s.slot.(inflight := true, status := Inflight, probeInflight := s.slot.consecutiveTimeouts >= 3)
              && t.log == s.log + [Started(|s.encodings|, now, s.slot.consecutiveTimeouts)]
              && t.clock == now
  {
  }

  /**
   A timeout counts one more in a row and, from the third on, restarts the circuit's time. It marks its encoding
   and the slot, unless the slot is free, the callback having come first: then it is a late completion already.
   */
  lemma ExpireDecides(s: System, id: nat, now: real, circuitSeconds: real)
    requires Enabled(s, Expire(id, now))
    ensures var t := Next(s, Expire(id, now), circuitSeconds);
            && t.slot.consecutiveTimeouts == s.slot.consecutiveTimeouts + 1
            && t.slot.openedAt == (if s.slot.consecutiveTimeouts >= 2 then now else s.slot.openedAt)
            && t.slot.inflight == s.slot.inflight && t.slot.probeInflight == s.slot.probeInflight
            && t.encodings == s.encodings[id := s.encodings[id].(stage := Expired)]
            && t.log == s.log + [TimedOut(id, now, s.encodings[id].called && s.slot.inflight)]
            && t.clock == now
            && if s.slot.inflight then
                 && t.slot.timedOut == s.slot.timedOut + {id} && t.slot.timeoutPending
                 && t.slot.status == TimeoutPending
                 && t.slot.lateCompletions == s.slot.lateCompletions
                 && t.slot.lastCompletionLate == s.slot.lastCompletionLate
               else
                 && t.slot.timedOut == s.slot.timedOut && t.slot.timeoutPending == s.slot.timeoutPending
                 && t.slot.status == Finished
                 && t.slot.lateCompletions == s.slot.lateCompletions + 1 && t.slot.lastCompletionLate
  {
  }

  /**
   A callback frees the slot. It resets the count and the circuit exactly if its encoding ended clean; that of
   any other probe restarts the circuit's time, and that of any other encoding leaves both.
   */
  lemma CallbackDecides(s: System, id: nat, now: real, circuitSeconds: real)
    requires Enabled(s, Callback(id, now))
    ensures var t, clean, late := Next(s, Callback(id, now), circuitSeconds), EndedClean(s, id), id in s.slot.timedOut;
            && !t.slot.inflight && !t.slot.timeoutPending && !t.slot.probeInflight
            && t.slot.consecutiveTimeouts == (if clean then 0 else s.slot.consecutiveTimeouts)
            && t.slot.openedAt == (if clean then 0.0 else if s.slot.probeInflight then now else s.slot.openedAt)
            && t.slot.timedOut == s.slot.timedOut - {id}
            && t.slot.lateCompletions == s.slot.lateCompletions + (if late then 1 else 0)
            && t.slot.lastCompletionLate == late
            && t.slot.status == (if s.encodings[id].phase.outcome.cancelled then CancelConfirmed else Finished)
            && t.encodings == s.encodings[id := s.encodings[id].(called := true)]
            && t.log == s.log + (if clean then [Succeeded(id)]
                                 else if s.slot.probeInflight then [ProbeFailed(id, now)] else [])
            && t.clock == now
  {
  }

  /** Confirming a recovery closes the circuit, but only while nothing is in the slot. */
  lemma ConfirmDecides(s: System, circuitSeconds: real)
    ensures var t, refusal := Next(s, Confirm, circuitSeconds), ConfirmStep(s.slot).0;
            if s.slot.inflight || s.slot.timeoutPending then refusal == Some(RecoveryPending) && t == s
            else
              && refusal == None && t.encodings == s.encodings && t.clock == s.clock && t.log == s.log + [Confirmed]
              && t.slot == s.slot.(consecutiveTimeouts := 0, openedAt := 0.0, status := Idle)
  {
  }

  /** The encodings go from admission over the queue to an end; only one still queued can be cancelled. */
  lemma PhaseDecides(s: System, m: Move, circuitSeconds: real)
    requires Enabled(s, m) && (m.Submit? || m.Begin? || m.End? || m.Cancel?)
    ensures var t, before := Next(s, m, circuitSeconds), s.encodings[m.id];
            && t.slot == s.slot && t.log == s.log && t.clock == s.clock
            && (m.Submit? ==> t.encodings == s.encodings[m.id := before.(phase := Queued)])
            && (m.Begin? ==> t.encodings == s.encodings[m.id := before.(phase := Running)])
            && (m.End? ==> t.encodings == s.encodings[m.id := before.(phase := Ended(Outcome(false, m.failed)))])
            && (m.Cancel? && before.phase == Queued ==>
                  t.encodings == s.encodings[m.id := before.(stage := Gone, phase := Ended(Outcome(true, false)))])
            && (m.Cancel? && before.phase != Queued ==> t.encodings == s.encodings[m.id := before.(stage := Gone)])
  {
  }

  /** The report says what the next caller will meet. */
  lemma ReportTells(slot: Slot, now: real, circuitSeconds: real)
    ensures var report := ReportOf(slot, now, circuitSeconds);
            var tripped := slot.consecutiveTimeouts >= 3;
            && (report.circuitOpen <==> tripped && now < slot.openedAt + circuitSeconds)
            && (report.probeReady <==> tripped && now >= slot.openedAt + circuitSeconds && !slot.probeInflight)
            && report.status == slot.status && report.inflight == slot.inflight
            && report.timeoutPending == slot.timeoutPending && report.probeInflight == slot.probeInflight
            && report.consecutiveTimeouts == slot.consecutiveTimeouts
            && report.lateCompletions == slot.lateCompletions && report.lastCompletionLate == slot.lastCompletionLate
  {
  }

  // ----- A failed probe -----

  /** A probe is admitted only by a tripped circuit, and it stays tripped until the probe's callback. */
  lemma {:induction false} ProbesAreTripped(start: real, moves: seq<Move>, circuitSeconds: real)
    ensures var slot := Run(start, moves, circuitSeconds).slot;
            slot.probeInflight ==> slot.inflight && slot.consecutiveTimeouts >= 3
  {
    if moves == [] {
    } else {
      ProbesAreTripped(start, moves[..|moves| - 1], circuitSeconds);
    }
  }

  /** The slot is free and the circuit open, at least until `until`. */
  predicate OpenUntil(s: System, until: real, circuitSeconds: real) {
    && !s.slot.inflight && !s.slot.timeoutPending
    && s.slot.consecutiveTimeouts >= 3 && s.slot.openedAt + circuitSeconds >= until
    && forall i :: 0 <= i < |s.encodings| ==> s.encodings[i].called
  }

  lemma StaysOpen(s: System, m: Move, until: real, circuitSeconds: real)
    requires OpenUntil(s, until, circuitSeconds) && !m.Confirm? && circuitSeconds >= 0.0
    requires s.slot.openedAt <= s.clock
    requires Next(s, m, circuitSeconds).clock < until
    ensures OpenUntil(Next(s, m, circuitSeconds), until, circuitSeconds)
    ensures Next(s, m, circuitSeconds).slot.openedAt <= Next(s, m, circuitSeconds).clock
  {
    if Enabled(s, m) {
      match m
      case Enter(now) => EnterDecides(s, now, circuitSeconds);
      case Expire(id, now) => ExpireDecides(s, id, now, circuitSeconds);
      case _ =>
    }
  }

  lemma ClockNeverBack(s: System, m: Move, circuitSeconds: real)
    ensures s.clock <= Next(s, m, circuitSeconds).clock
  {
  }

  lemma {:induction false} OpenMeanwhile(start: real, past: seq<Move>, future: seq<Move>, until: real,
                                         circuitSeconds: real)
    requires circuitSeconds >= 0.0 && forall k :: 0 <= k < |future| ==> !future[k].Confirm?
    requires OpenUntil(Run(start, past, circuitSeconds), until, circuitSeconds)
    requires Run(start, past, circuitSeconds).slot.openedAt <= Run(start, past, circuitSeconds).clock
    requires Run(start, past + future, circuitSeconds).clock < until
    ensures OpenUntil(Run(start, past + future, circuitSeconds), until, circuitSeconds)
    ensures var s := Run(start, past + future, circuitSeconds); s.slot.openedAt <= s.clock
  {
    if future == [] {
      assert past + future == past;
    } else {
      var init, m := future[..|future| - 1], future[|future| - 1];
      assert past + future == past + init + [m];
      RunThen(start, past + init, m, circuitSeconds);
      ClockNeverBack(Run(start, past + init, circuitSeconds), m, circuitSeconds);
      OpenMeanwhile(start, past, init, until, circuitSeconds);
      StaysOpen(Run(start, past + init, circuitSeconds), m, until, circuitSeconds);
    }
  }

  /**
   After the callback of a probe that failed, was cancelled or came late, the circuit is open for its whole time:
   until a recovery is confirmed every caller that comes earlier is refused for that reason.
   */
  lemma FailedProbeReopens(start: real, past: seq<Move>, id: nat, now: real, future: seq<Move>, later: real,
                           circuitSeconds: real)
    requires var s := Run(start, past, circuitSeconds);
             && Enabled(s, Callback(id, now)) && s.slot.probeInflight && !EndedClean(s, id)
    requires circuitSeconds >= 0.0 && forall k :: 0 <= k < |future| ==> !future[k].Confirm?
    requires var t := Run(start, past + [Callback(id, now)] + future, circuitSeconds);
             Enabled(t, Enter(later)) && later < now + circuitSeconds
    ensures var t := Run(start, past + [Callback(id, now)] + future, circuitSeconds);
            && AdmitStep(t.slot, later, circuitSeconds).0 == Some(CircuitOpen)
            && Next(t, Enter(later), circuitSeconds) == t.(clock := later)
  {
    var s, called := Run(start, past, circuitSeconds), past + [Callback(id, now)];
    Invariants(start, past, circuitSeconds);
    ProbesAreTripped(start, past, circuitSeconds);
    CallbackDecides(s, id, now, circuitSeconds);
    RunThen(start, past, Callback(id, now), circuitSeconds);
    assert forall i :: 0 <= i < |s.encodings| && i != id ==> s.encodings[i].called;
    OpenMeanwhile(start, called, future, now + circuitSeconds, circuitSeconds);
    EnterDecides(Run(start, called + future, circuitSeconds), later, circuitSeconds);
  }
}
