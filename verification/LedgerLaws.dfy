/** What the ledger promises about every run: conservation, bounded overshoot, permanence, life cycles. */
module LedgerLaws {
  import opened ModelCallLedger
  import opened LedgerRuns

  // ----- Token accounting -----

  /**
   Each bucket has used exactly its imported baseline plus what is charged to its
   reservations, and each reservation is charged the larger of the estimate and of any
   usage reported for its call.
   */
  lemma {:induction false} TokensConserved(events: seq<Event>, sanitize: Json -> Json)
    ensures var t, baseline := Replay(events, sanitize), Baseline(events, sanitize);
            && (forall s :: s in t.buckets ==> t.buckets[s].used == ImportedUse(baseline, s) + ChargedTotal(t, s))
            && (forall s :: s !in t.buckets ==> s !in baseline && RowsOf(t.reservations, s) == map[])
            && (forall k :: k in t.reservations ==>
                  && k.0 in t.calls
                  && t.reservations[k] == Max(t.calls[k.0].estimate, Reported(events, k.0, sanitize)))
  {
    Invariants(events, sanitize);
    var t := Replay(events, sanitize);
    forall k | k in t.reservations
      ensures k.0 in t.calls && t.reservations[k] == Max(t.calls[k.0].estimate, Reported(events, k.0, sanitize))
    {
      ChargedIsReported(events, sanitize, k.0, k.1);
    }
  }

  lemma {:induction false} ChargedIsReported(events: seq<Event>, sanitize: Json -> Json, id: CallId, scope: string)
    ensures var t, reported := Replay(events, sanitize), Reported(events, id, sanitize);
            && (id !in t.calls ==> reported == 0 && (id, scope) !in t.reservations)
            && ((id, scope) in t.reservations ==>
                  t.reservations[(id, scope)] == Max(t.calls[id].estimate, reported))
  {
    if events == [] {
    } else {
      var init, e := events[..|events| - 1], events[|events| - 1];
      ChargedIsReported(init, sanitize, id, scope);
      EffectOnCall(Replay(init, sanitize), e, sanitize, id);
      EffectOnRow(Replay(init, sanitize), e, sanitize, id, scope);
    }
  }

  /** A bucket that starts within its ceiling exceeds it by no more than its calls overran their estimates. */
  lemma {:induction false} OvershootBounded(events: seq<Event>, sanitize: Json -> Json, scope: string)
    requires scope in Replay(events, sanitize).buckets
    requires var imported := Baseline(events, sanitize);
             scope in imported ==> imported[scope].used <= imported[scope].ceiling
    ensures var t := Replay(events, sanitize);
            t.buckets[scope].used <= t.buckets[scope].ceiling + ExcessTotal(t, scope)
  {
    Invariants(events, sanitize);
  }

  // ----- What a run never undoes -----

  predicate Full(b: Bucket) {
    b.used > b.ceiling
  }

  /** Records, attempts, limits and migrations stay; finished records do not change. */
  ghost predicate RecordsLater(t: Tables, u: Tables) {
    && (forall id :: id in t.calls ==> id in u.calls && (t.calls[id].state.Terminal() ==> u.calls[id] == t.calls[id]))
    && (forall id :: id in t.attempts ==> id in u.attempts && u.attempts[id] == t.attempts[id])
    && (forall op :: op in t.limits ==> op in u.limits && u.limits[op] == t.limits[op])
    && t.migrations.Keys <= u.migrations.Keys
  }

  /** Use grows and ceilings fall. */
  ghost predicate BucketsLater(before: map<string, Bucket>, after: map<string, Bucket>) {
    forall s :: s in before ==>
      s in after && after[s].ceiling <= before[s].ceiling && before[s].used <= after[s].used
  }

  /** Charges grow, and a full bucket gets no new reservation. */
  ghost predicate ReservationsLater(t: Tables, u: Tables) {
    && (forall k :: k in t.reservations ==> k in u.reservations && t.reservations[k] <= u.reservations[k])
    && (forall k :: k in u.reservations && k.1 in t.buckets && Full(t.buckets[k.1]) ==> k in t.reservations)
  }

  /** `u` may come after `t` in a run. */
  ghost predicate Later(t: Tables, u: Tables) {
    RecordsLater(t, u) && BucketsLater(t.buckets, u.buckets) && ReservationsLater(t, u)
  }

  lemma ReservedBucketsLater(buckets: map<string, Bucket>, scopes: map<string, int>, estimate: int)
    requires estimate >= 0 && AllAdmit(buckets, scopes, estimate)
    ensures BucketsLater(buckets, ReservedBuckets(buckets, scopes, {}, estimate))
    ensures forall s :: s in buckets && s in scopes ==> !Full(buckets[s])
  {
    forall s | s in buckets && s in scopes
      ensures buckets[s].used + estimate <= Min(scopes[s], buckets[s].ceiling)
    {
      assert Admits(buckets, s, scopes[s], estimate);
    }
  }

  lemma ReservedRowsLater(t: Tables, req: Request, scopes: map<string, int>)
    requires WellFormed(t) && req.estimate >= 0 && req.id !in t.calls
    requires forall s :: s in t.buckets && s in scopes ==> !Full(t.buckets[s])
    ensures ReservationsLater(t, Reserved(t, req, scopes))
  {
    forall k
      ensures k in t.reservations ==>
                k in Reserved(t, req, scopes).reservations &&
                  t.reservations[k] == Reserved(t, req, scopes).reservations[k]
      ensures k in Reserved(t, req, scopes).reservations ==> k in t.reservations || k.1 in scopes
    {
      ReservedRow(t.reservations, req.id, scopes, req.estimate, k);
    }
  }

  lemma ReservedIsLater(t: Tables, req: Request, scopes: map<string, int>)
    requires WellFormed(t) && req.estimate >= 0 && req.id !in t.calls && AllAdmit(t.buckets, scopes, req.estimate)
    ensures Later(t, Reserved(t, req, scopes))
  {
    ReservedBucketsLater(t.buckets, scopes, req.estimate);
    ReservedRowsLater(t, req, scopes);
  }

  lemma SettledIsLater(t: Tables, c: Change, sanitize: Json -> Json)
    requires WellFormed(t) && c.id in t.calls && !t.calls[c.id].state.Terminal() && c.report.actualTokens >= 0
    ensures Later(t, Settled(t, c, sanitize))
  {
  }

  lemma StepIsLater(t: Tables, e: Event, sanitize: Json -> Json)
    requires WellFormed(t)
    ensures Later(t, Step(t, e, sanitize))
  {
    if Step(t, e, sanitize) != t {
      if e.Prepare? {
        PrepareCreates(t, e.req, e.now, e.today);
        ReservedIsLater(t, e.req, EffectiveScopes(e.req, e.today).value);
      } else if e.Transition? {
        SettledIsLater(t, e.change, sanitize);
      }
    }
  }

  lemma ReservationsLaterTrans(t: Tables, u: Tables, v: Tables)
    requires BucketsLater(t.buckets, u.buckets) && ReservationsLater(t, u) && ReservationsLater(u, v)
    ensures ReservationsLater(t, v)
  {
  }

  lemma LaterTrans(t: Tables, u: Tables, v: Tables)
    requires Later(t, u) && Later(u, v)
    ensures Later(t, v)
  {
    ReservationsLaterTrans(t, u, v);
  }

  lemma StepStaysLater(t: Tables, u: Tables, e: Event, sanitize: Json -> Json)
    requires WellFormed(u) && Later(t, u)
    ensures Later(t, Step(u, e, sanitize))
  {
    StepIsLater(u, e, sanitize);
    LaterTrans(t, u, Step(u, e, sanitize));
  }

  lemma RunFormed(events: seq<Event>, sanitize: Json -> Json)
    ensures WellFormed(Replay(events, sanitize))
  {
    Invariants(events, sanitize);
  }

  lemma LaterMore(t: Tables, events: seq<Event>, e: Event, sanitize: Json -> Json)
    requires Later(t, Replay(events, sanitize))
    ensures Later(t, Replay(events + [e], sanitize))
  {
    RunFormed(events, sanitize);
    StepStaysLater(t, Replay(events, sanitize), e, sanitize);
    ReplayOne(events, e, sanitize);
  }

  lemma {:induction false} RunIsLater(past: seq<Event>, future: seq<Event>, sanitize: Json -> Json)
    ensures Later(Replay(past, sanitize), Replay(past + future, sanitize))
    decreases |future|
  {
    if future == [] {
      assert past + future == past;
    } else {
      var init, last := future[..|future| - 1], future[|future| - 1];
      RunIsLater(past, init, sanitize);
      LaterMore(Replay(past, sanitize), past + init, last, sanitize);
      assert past + init + [last] == past + future;
    }
  }

  /** Ceilings never rise, and a bucket once over its ceiling stays over and takes no further attempt. */
  lemma OverdrawnForGood(past: seq<Event>, future: seq<Event>, sanitize: Json -> Json, scope: string)
    requires scope in Replay(past, sanitize).buckets
    ensures var t, u := Replay(past, sanitize), Replay(past + future, sanitize);
            && scope in u.buckets && u.buckets[scope].ceiling <= t.buckets[scope].ceiling
            && (Full(t.buckets[scope]) ==>
                  && Full(u.buckets[scope])
                  && RowsOf(u.reservations, scope).Keys == RowsOf(t.reservations, scope).Keys)
  {
    RunIsLater(past, future, sanitize);
  }

  /** A finished call keeps its record, with its response, for the rest of the run. */
  lemma TerminalForGood(past: seq<Event>, future: seq<Event>, sanitize: Json -> Json, id: CallId)
    requires id in Replay(past, sanitize).calls && Replay(past, sanitize).calls[id].state.Terminal()
    ensures id in Replay(past + future, sanitize).calls
    ensures Replay(past + future, sanitize).calls[id] == Replay(past, sanitize).calls[id]
  {
    RunIsLater(past, future, sanitize);
  }

  /** Preparing a recorded attempt changes no table and can only return the record. */
  lemma RecordedPrepare(t: Tables, req: Request, now: real, today: string)
    requires req.id in t.calls
    ensures var r := PrepareStep(t, req, now, today);
            r.1 == t && (r.0.Ok? ==> r.0 == Ok(t.calls[req.id]))
  {
  }

  lemma CommittedIsRecorded(t: Tables, req: Request, now: real, today: string)
    requires PrepareStep(t, req, now, today).0.Ok?
    ensures req.id in PrepareStep(t, req, now, today).1.calls
  {
  }

  /** Once an attempt is recorded, preparing it again, however much later, changes no table. */
  lemma PreparedOnce(past: seq<Event>, future: seq<Event>, sanitize: Json -> Json, first: Event, again: Event)
    requires first.Prepare? && again.Prepare? && first.req.id == again.req.id
    requires Commits(Replay(past, sanitize), first, sanitize)
    ensures var t := Replay(past + [first] + future, sanitize);
            && again.req.id in t.calls
            && Step(t, again, sanitize) == t
            && (Commits(t, again, sanitize) ==>
                  PrepareStep(t, again.req, again.now, again.today).0 == Ok(t.calls[again.req.id]))
  {
    var begun := past + [first];
    assert begun[..|begun| - 1] == past && begun[|begun| - 1] == first;
    CommittedIsRecorded(Replay(past, sanitize), first.req, first.now, first.today);
    RunIsLater(begun, future, sanitize);
    RecordedPrepare(Replay(begun + future, sanitize), again.req, again.now, again.today);
  }

  /** An event that does not commit, a refused prepare among them, changes no table. */
  lemma RefusalChangesNothing(t: Tables, e: Event, sanitize: Json -> Json)
    requires !Commits(t, e, sanitize)
    ensures Step(t, e, sanitize) == t
  {
  }

  /** The i-th event of a run is an import that takes effect. */
  predicate ImportsAt(events: seq<Event>, i: nat, sanitize: Json -> Json)
    requires i < |events|
  {
    events[i].ImportBaseline? && Commits(Replay(events[..i], sanitize), events[i], sanitize)
  }

  /** At most one import takes effect, and only while nothing has been accounted. */
  lemma AtMostOneImport(events: seq<Event>, sanitize: Json -> Json, i: nat, j: nat)
    requires i < |events| && j < |events|
    requires ImportsAt(events, i, sanitize) && ImportsAt(events, j, sanitize)
    ensures i == j && Untouched(Replay(events[..i], sanitize))
  {
    if i < j {
      ImportBlocks(events, i, j, sanitize);
    } else if j < i {
      ImportBlocks(events, j, i, sanitize);
    }
  }

  lemma MigrationsStay(past: seq<Event>, future: seq<Event>, sanitize: Json -> Json)
    ensures Replay(past, sanitize).migrations.Keys <= Replay(past + future, sanitize).migrations.Keys
  {
    RunIsLater(past, future, sanitize);
  }

  lemma ImportBlocks(events: seq<Event>, i: nat, j: nat, sanitize: Json -> Json)
    requires i < j < |events| && ImportsAt(events, i, sanitize)
    ensures !ImportsAt(events, j, sanitize)
  {
    var past := events[..i];
    ReplayOne(past, events[i], sanitize);
    assert past + [events[i]] + events[i + 1..j] == events[..j];
    MigrationsStay(past + [events[i]], events[i + 1..j], sanitize);
  }

  // ----- Life cycles -----

  /** The only ways through the states of a call. */
  predicate LifeCycle(path: seq<CallState>) {
    || path == [Prepared]
    || path == [Prepared, FailedRetryableNotSent]
    || path == [Prepared, FailedFinal]
    || path == [Prepared, DispatchIntent]
    || (|path| == 3 && path[..2] == [Prepared, DispatchIntent] && path[2].Terminal())
  }

  /**
   Every record has gone through one of the life cycles, is in its last state, and has one
   revision per state: a success or an unknown outcome is revision 3, through dispatch_intent.
   */
  lemma {:induction false} RecordsFollowLifeCycles(events: seq<Event>, sanitize: Json -> Json, id: CallId)
    ensures var t, path := Replay(events, sanitize), Path(events, id, sanitize);
            && (id in t.calls <==> path != [])
            && (id in t.calls ==>
                  && LifeCycle(path)
                  && t.calls[id].state == path[|path| - 1]
                  && t.calls[id].revision == |path|
                  && (t.calls[id].state.Succeeded? || t.calls[id].state.OutcomeUnknown? ==>
                        path == [Prepared, DispatchIntent, t.calls[id].state]))
  {
    if events == [] {
    } else {
      var init, e := events[..|events| - 1], events[|events| - 1];
      RecordsFollowLifeCycles(init, sanitize, id);
      EffectOnCall(Replay(init, sanitize), e, sanitize, id);
    }
  }

  // ----- Operations -----

  /**
   An event that turns an attempt into a dispatch intent is made under the operation it is
   bound to, by an owner whose lease is running at that moment; an unbound attempt only by
   a caller without an operation.
   */
  lemma DispatchedUnderLease(t: Tables, e: Event, sanitize: Json -> Json, id: CallId)
    requires id in t.calls && !t.calls[id].state.DispatchIntent?
    requires Step(t, e, sanitize).calls[id].state.DispatchIntent?
    ensures e.Transition? && e.change.id == id
    ensures BoundOperation(t, id) == ClaimedOperation(e.change.claim)
    ensures e.change.claim.Some? ==> Owns(t, e.change.claim.value, e.now)
  {
    EffectOnCall(t, e, sanitize, id);
  }

  /** The attempts of an operation stay within its limits in every run. */
  lemma {:induction false} AttemptsWithinLimits(events: seq<Event>, sanitize: Json -> Json, operation: string)
    ensures var t := Replay(events, sanitize);
            && (AttemptsOf(t.attempts, operation) != {} ==>
                  operation in t.limits && |AttemptsOf(t.attempts, operation)| <= t.limits[operation].modelCalls)
            && (RepairsOf(t.attempts, operation) != {} ==>
                  operation in t.limits && |RepairsOf(t.attempts, operation)| <= t.limits[operation].repairCalls)
  {
    Invariants(events, sanitize);
    var t := Replay(events, sanitize);
    if id :| id in AttemptsOf(t.attempts, operation) {
      assert t.attempts[id].operation == operation;
    }
    if id :| id in RepairsOf(t.attempts, operation) {
      assert t.attempts[id].isRepair;
    }
  }

  // ----- A sweep among other transactions -----

  /** A dispatch intent stays one until it finishes. */
  lemma {:induction false} IntentsFinish(past: seq<Event>, future: seq<Event>, sanitize: Json -> Json, id: CallId)
    requires id in Intents(Replay(past, sanitize).calls)
    ensures var u := Replay(past + future, sanitize);
            id in u.calls && (u.calls[id].state.DispatchIntent? || u.calls[id].state.Terminal())
  {
    if future == [] {
      assert past + future == past;
    } else {
      var init, last := future[..|future| - 1], future[|future| - 1];
      IntentsFinish(past, init, sanitize, id);
      EffectOnCall(Replay(past + init, sanitize), last, sanitize, id);
      ReplayOne(past + init, last, sanitize);
      assert past + init + [last] == past + future;
    }
  }

  /** A recovery closes a call exactly if it is an intent that no live operation holds at that moment. */
  lemma RecoveryClosesIff(t: Tables, id: CallId, now: real, sanitize: Json -> Json)
    requires WellFormed(t) && id in t.calls
    ensures var u := Step(t, Transition(RecoveryOf(id), now), sanitize);
            && (u != t <==> t.calls[id].state.DispatchIntent? && Recoverable(t, id, now))
            && (u != t ==> id in u.calls && u.calls[id].state.OutcomeUnknown?)
  {
    if t.calls[id].state.DispatchIntent? {
      RecoveryEffect(t, id, now, sanitize);
      assert Step(t, Transition(RecoveryOf(id), now), sanitize) != t ==>
               Step(t, Transition(RecoveryOf(id), now), sanitize).calls[id] != t.calls[id];
    }
  }

  lemma TerminalStays(past: seq<Event>, future: seq<Event>, sanitize: Json -> Json, id: CallId)
    requires id in Replay(past, sanitize).calls
    ensures var u := Replay(past + future, sanitize);
            id in u.calls && (Replay(past, sanitize).calls[id].state.Terminal() ==> u.calls[id].state.Terminal())
  {
    RunIsLater(past, future, sanitize);
  }

  /**
   The transactions of a sweep may be mixed with any others: an intent open when the sweep lists it has
   finished when the sweep ends, unless a live operation held it when the sweep came to it.
   */
  lemma SweepAmongOthers(past: seq<Event>, sweep: seq<Event>, sanitize: Json -> Json, id: CallId, k: nat)
    requires id in Intents(Replay(past, sanitize).calls)
    requires k < |sweep| && sweep[k].Transition? && sweep[k].change == RecoveryOf(id)
    ensures var t, u := Replay(past + sweep[..k], sanitize), Replay(past + sweep, sanitize);
            && id in t.calls && id in u.calls
            && (u.calls[id].state.Terminal()
                || (t.calls[id].state.DispatchIntent? && !Recoverable(t, id, sweep[k].now)))
  {
    var before := past + sweep[..k];
    assert past + sweep == before + [sweep[k]] + sweep[k + 1..];
    IntentsFinish(past, sweep[..k], sanitize, id);
    RunFormed(before, sanitize);
    RecoveryClosesIff(Replay(before, sanitize), id, sweep[k].now, sanitize);
    ReplayOne(before, sweep[k], sanitize);
    TerminalStays(before + [sweep[k]], sweep[k + 1..], sanitize, id);
  }
}
