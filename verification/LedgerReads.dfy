/** What the two ways of reading the ledger tell a caller about the run. */
module LedgerReads {
  import opened Wrappers
  import opened ModelCallLedger
  import opened LedgerLaws
  import opened LedgerRuns

  /** Two reads of a call, `first` before `second`: a record stays, and its revision tells whether it changed. */
  predicate Consistent(first: Option<Record>, second: Option<Record>) {
    first.Some? ==>
      && second.Some?
      && first.value.id == second.value.id
      && first.value.revision <= second.value.revision
      && (first.value.revision == second.value.revision ==> first == second)
      && (first.value.state.Terminal() ==> first == second)
  }

  lemma StepIsConsistent(t: Tables, e: Event, sanitize: Json -> Json, id: CallId)
    requires WellFormed(t)
    ensures Consistent(Read(t.calls, id), Read(Step(t, e, sanitize).calls, id))
  {
    EffectOnCall(t, e, sanitize, id);
  }

  /**
   A caller that reads a call twice sees the same record exactly if it sees the same revision, and never
   another once the call has finished.
   */
  lemma {:induction false} RevisionTellsChange(past: seq<Event>, future: seq<Event>, sanitize: Json -> Json, id: CallId)
    ensures Consistent(Read(Replay(past, sanitize).calls, id), Read(Replay(past + future, sanitize).calls, id))
  {
    if future == [] {
      assert past + future == past;
    } else {
      var init, last := future[..|future| - 1], future[|future| - 1];
      RevisionTellsChange(past, init, sanitize, id);
      Invariants(past + init, sanitize);
      StepIsConsistent(Replay(past + init, sanitize), last, sanitize, id);
      ReplayOne(past + init, last, sanitize);
      assert past + init + [last] == past + future;
    }
  }

  /** A reader finds a call exactly if the run has prepared it, and in the state of its last step. */
  lemma FoundIffPrepared(events: seq<Event>, sanitize: Json -> Json, id: CallId)
    ensures var found, path := Read(Replay(events, sanitize).calls, id), Path(events, id, sanitize);
            && (found.Some? <==> path != [])
            && (found.Some? ==> found.value.id == id && found.value.state == path[|path| - 1])
  {
    Invariants(events, sanitize);
    RecordsFollowLifeCycles(events, sanitize, id);
  }

  /** The payload reported last by a committed transition of `id`, if any reported one. */
  function LastPayload(events: seq<Event>, id: CallId, sanitize: Json -> Json): Option<Json> {
    if events == [] then None
    else
      var init, last := events[..|events| - 1], events[|events| - 1];
      if Moves(Replay(init, sanitize), last, id, sanitize) && last.change.report.response.Some?
      then last.change.report.response else LastPayload(init, id, sanitize)
  }

  lemma {:induction false} ResponseIsLastPayload(events: seq<Event>, sanitize: Json -> Json, id: CallId)
    ensures var calls, payload := Replay(events, sanitize).calls, LastPayload(events, id, sanitize);
            && (id in calls ==> calls[id].response == if payload.Some? then Some(sanitize(payload.value)) else None)
            && (id !in calls ==> payload.None?)
  {
    if events == [] {
    } else {
      var init := events[..|events| - 1];
      ResponseIsLastPayload(init, sanitize, id);
      EffectOnCall(Replay(init, sanitize), events[|events| - 1], sanitize, id);
    }
  }

  /**
   After any run, loading a read record gives the sanitised form of the payload reported last for the
   call, exactly if the call has succeeded and a payload was reported.
   */
  lemma LoadedIsReported(events: seq<Event>, sanitize: Json -> Json, id: CallId)
    requires Read(Replay(events, sanitize).calls, id).Some?
    ensures var record, payload := Read(Replay(events, sanitize).calls, id).value, LastPayload(events, id, sanitize);
            Loaded(record) ==
            if record.state.Succeeded? && payload.Some? then Ok(sanitize(payload.value)) else Raise(ModelCallConflict)
  {
    ResponseIsLastPayload(events, sanitize, id);
  }
}
