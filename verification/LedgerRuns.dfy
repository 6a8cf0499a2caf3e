/**
 Token accounting and record life cycles over whole runs of the ledger: any sequence of
 prepares, transitions, baseline imports and changes of the runtime operations, starting
 from empty tables. Limits of an operation, once written, stay.
 */
module LedgerRuns {
  import opened ModelCallLedger
  import opened TableSums

  datatype Event =
    | Prepare(req: Request, now: real, today: string)
    | Transition(change: Change, now: real)
    | ImportBaseline(baseline: Import)
    | Runtime(operations: map<string, Operation>, newLimits: map<string, Limit>)

  /** Whether an event commits; the others leave the tables as they were. */
  predicate Commits(t: Tables, e: Event, sanitize: Json -> Json) {
    match e
    case Prepare(req, now, today) => PrepareStep(t, req, now, today).0.Ok?
    case Transition(change, now) => TransitionStep(t, change, now, sanitize).0.Ok?
    case ImportBaseline(i) => ImportStep(t, i).0 == Ok(Imported)
    case Runtime(_, _) => true
  }

  function Step(t: Tables, e: Event, sanitize: Json -> Json): Tables {
    match e
    case Prepare(req, now, today) => PrepareStep(t, req, now, today).1
    case Transition(change, now) => TransitionStep(t, change, now, sanitize).1
    case ImportBaseline(i) => ImportStep(t, i).1
    case Runtime(operations, newLimits) => t.(operations := operations, limits := newLimits + t.limits)
  }

  function Replay(events: seq<Event>, sanitize: Json -> Json): Tables {
    if events == [] then EMPTY_TABLES
    else Step(Replay(events[..|events| - 1], sanitize), events[|events| - 1], sanitize)
  }

  lemma ReplayOne(events: seq<Event>, e: Event, sanitize: Json -> Json)
    ensures Replay(events + [e], sanitize) == Step(Replay(events, sanitize), e, sanitize)
  {
    var run := events + [e];
    assert run[..|run| - 1] == events && run[|run| - 1] == e;
  }

  // ----- What a run has imported, reported and passed through -----

  /** The buckets written by the import that took effect, if one did. */
  function Baseline(events: seq<Event>, sanitize: Json -> Json): map<string, Bucket> {
    if events == [] then map[]
    else
      var last := events[|events| - 1];
      if last.ImportBaseline? && Commits(Replay(events[..|events| - 1], sanitize), last, sanitize) then
        last.baseline.buckets
      else Baseline(events[..|events| - 1], sanitize)
  }

  /** The largest usage a committed transition of `id` has reported. */
  function Reported(events: seq<Event>, id: CallId, sanitize: Json -> Json): int {
    if events == [] then 0
    else
      var init, last := events[..|events| - 1], events[|events| - 1];
      var before := Reported(init, id, sanitize);
      if Moves(Replay(init, sanitize), last, id, sanitize) then Max(before, last.change.report.actualTokens)
      else before
  }

  /** The states the record of `id` has been in. */
  function Path(events: seq<Event>, id: CallId, sanitize: Json -> Json): seq<CallState> {
    if events == [] then []
    else
      var init, last := events[..|events| - 1], events[|events| - 1];
      var before := Path(init, id, sanitize);
      if Creates(Replay(init, sanitize), last, id) then before + [Prepared]
      else if Moves(Replay(init, sanitize), last, id, sanitize) then before + [last.change.target]
      else before
  }

  // ----- Table totals -----

  ghost function RowsOf(rows: map<(CallId, string), int>, scope: string): map<(CallId, string), int> {
    map k | k in rows && k.1 == scope :: rows[k]
  }

  /** The sum of `charged` over the reservations of a bucket. */
  ghost function ChargedTotal(t: Tables, scope: string): int {
    Sum(RowsOf(t.reservations, scope))
  }

  function EstimateOf(calls: map<CallId, Record>, id: CallId): int {
    if id in calls then calls[id].estimate else 0
  }

  ghost function ExcessOf(rows: map<(CallId, string), int>, calls: map<CallId, Record>, scope: string):
    map<(CallId, string), int>
  {
    map k | k in rows && k.1 == scope :: rows[k] - EstimateOf(calls, k.0)
  }

  /** The sum of `charged - estimate` over the reservations of a bucket. */
  ghost function ExcessTotal(t: Tables, scope: string): int {
    Sum(ExcessOf(t.reservations, t.calls, scope))
  }

  function ImportedUse(baseline: map<string, Bucket>, scope: string): int {
    if scope in baseline then baseline[scope].used else 0
  }

  // ----- Invariants -----

  ghost predicate Conserved(t: Tables, baseline: map<string, Bucket>) {
    && baseline.Keys <= t.buckets.Keys
    && forall s :: s in t.buckets ==> t.buckets[s].used == ImportedUse(baseline, s) + ChargedTotal(t, s)
  }

  predicate StartsWithin(baseline: map<string, Bucket>, scope: string) {
    scope in baseline ==> baseline[scope].used <= baseline[scope].ceiling
  }

  predicate CoversEstimates(rows: map<(CallId, string), int>, calls: map<CallId, Record>) {
    forall k :: k in rows ==> rows[k] >= EstimateOf(calls, k.0)
  }

  ghost predicate Bounded(t: Tables, baseline: map<string, Bucket>) {
    && CoversEstimates(t.reservations, t.calls)
    && forall s :: s in t.buckets && StartsWithin(baseline, s) ==>
         t.buckets[s].used <= t.buckets[s].ceiling + ExcessTotal(t, s)
  }

  ghost predicate WithinOperationLimits(t: Tables) {
    forall id :: id in t.attempts ==>
      var operation := t.attempts[id].operation;
      && operation in t.limits
      && |AttemptsOf(t.attempts, operation)| <= t.limits[operation].modelCalls
      && (t.attempts[id].isRepair ==> |RepairsOf(t.attempts, operation)| <= t.limits[operation].repairCalls)
  }

  // ----- One admitted attempt -----

  /** What a prepare that creates a record has checked. */
  lemma PrepareCreates(t: Tables, req: Request, now: real, today: string)
    requires PrepareStep(t, req, now, today).1 != t
    ensures var scopes := EffectiveScopes(req, today);
            && scopes.Ok? && req.estimate >= 0 && req.id !in t.calls
            && (forall s :: s in scopes.value ==> scopes.value[s] >= 0)
            && (req.claim.Some? ==> Owns(t, req.claim.value, now)
                                    && WithinLimits(t, req.claim.value.operation, IsRepair(req.id.purpose)))
            && AllAdmit(t.buckets, scopes.value, req.estimate)
            && PrepareStep(t, req, now, today) == (Ok(NewRecord(req)), Reserved(t, req, scopes.value))
  {
  }

  lemma ReservedRowsOf(rows: map<(CallId, string), int>, id: CallId, scopes: map<string, int>, estimate: int,
                       scope: string)
    requires (id, scope) !in rows
    ensures RowsOf(ReservedRows(rows, id, scopes, {}, estimate), scope) ==
            if scope in scopes then RowsOf(rows, scope)[(id, scope) := estimate] else RowsOf(rows, scope)
  {
  }

  lemma ReservedExcessAt(rows: map<(CallId, string), int>, calls: map<CallId, Record>, record: Record,
                         scopes: map<string, int>, scope: string, k: (CallId, string))
    requires forall s :: (record.id, s) !in rows
    ensures var after :=
            ExcessOf(ReservedRows(rows, record.id, scopes, {}, record.estimate), calls[record.id := record], scope);
            var own := k == (record.id, scope) && scope in scopes;
            && (k in after <==> own || k in ExcessOf(rows, calls, scope))
            && (k in after ==> after[k] == if own then 0 else ExcessOf(rows, calls, scope)[k])
  {
    ReservedRow(rows, record.id, scopes, record.estimate, k);
  }

  lemma ReservedExcessOf(rows: map<(CallId, string), int>, calls: map<CallId, Record>, record: Record,
                         scopes: map<string, int>, scope: string)
    requires forall s :: (record.id, s) !in rows
    ensures ExcessOf(ReservedRows(rows, record.id, scopes, {}, record.estimate), calls[record.id := record], scope) ==
            if scope in scopes then ExcessOf(rows, calls, scope)[(record.id, scope) := 0]
            else ExcessOf(rows, calls, scope)
  {
    var after :=
      ExcessOf(ReservedRows(rows, record.id, scopes, {}, record.estimate), calls[record.id := record], scope);
    var before := ExcessOf(rows, calls, scope);
    forall k
      ensures k in after <==> (k == (record.id, scope) && scope in scopes) || k in before
      ensures k in after ==> after[k] == if k == (record.id, scope) && scope in scopes then 0 else before[k]
    {
      ReservedExcessAt(rows, calls, record, scopes, scope, k);
    }
  }

  lemma ReservedConserves(t: Tables, req: Request, scopes: map<string, int>, baseline: map<string, Bucket>)
    requires WellFormed(t) && Conserved(t, baseline) && req.estimate >= 0 && req.id !in t.calls
    ensures Conserved(Reserved(t, req, scopes), baseline)
  {
    var u := Reserved(t, req, scopes);
    forall s | s in u.buckets
      ensures u.buckets[s].used == ImportedUse(baseline, s) + ChargedTotal(u, s)
    {
      ReservedRowsOf(t.reservations, req.id, scopes, req.estimate, s);
      if s in scopes {
        SumInsert(RowsOf(t.reservations, s), (req.id, s), req.estimate);
      }
      if s !in t.buckets {
        assert RowsOf(t.reservations, s) == map[];
      }
    }
  }

  lemma ReservedBounded(t: Tables, req: Request, scopes: map<string, int>, baseline: map<string, Bucket>)
    requires WellFormed(t) && Bounded(t, baseline) && req.estimate >= 0 && req.id !in t.calls
    requires AllAdmit(t.buckets, scopes, req.estimate)
    ensures Bounded(Reserved(t, req, scopes), baseline)
  {
    var u := Reserved(t, req, scopes);
    ReservedCovers(t.reservations, t.calls, NewRecord(req), scopes);
    forall s | s in u.buckets && StartsWithin(baseline, s)
      ensures u.buckets[s].used <= u.buckets[s].ceiling + ExcessTotal(u, s)
    {
      ReservedExcessOf(t.reservations, t.calls, NewRecord(req), scopes, s);
      if s in scopes {
        assert Admits(t.buckets, s, scopes[s], req.estimate);
        SumNonNegative(ExcessOf(u.reservations, u.calls, s));
      }
    }
  }

  lemma ReservedCovers(rows: map<(CallId, string), int>, calls: map<CallId, Record>, record: Record,
                       scopes: map<string, int>)
    requires CoversEstimates(rows, calls) && forall s :: (record.id, s) !in rows
    ensures CoversEstimates(ReservedRows(rows, record.id, scopes, {}, record.estimate), calls[record.id := record])
  {
  }

  lemma ReservedWithinLimits(t: Tables, req: Request, scopes: map<string, int>)
    requires WellFormed(t) && WithinOperationLimits(t) && req.estimate >= 0 && req.id !in t.calls
    requires req.claim.Some? ==> WithinLimits(t, req.claim.value.operation, IsRepair(req.id.purpose))
    ensures WithinOperationLimits(Reserved(t, req, scopes))
  {
    if req.claim.Some? {
      var u, own := Reserved(t, req, scopes), req.claim.value.operation;
      forall id | id in u.attempts
        ensures var operation := u.attempts[id].operation;
                && operation in u.limits
                && |AttemptsOf(u.attempts, operation)| <= u.limits[operation].modelCalls
                && (u.attempts[id].isRepair ==> |RepairsOf(u.attempts, operation)| <= u.limits[operation].repairCalls)
      {
        var operation := u.attempts[id].operation;
        AttemptAdded(t.attempts, req.id, u.attempts[req.id], operation);
      }
    }
  }

  lemma AttemptAdded(attempts: map<CallId, Attempt>, id: CallId, attempt: Attempt, operation: string)
    requires id !in attempts
    ensures AttemptsOf(attempts[id := attempt], operation) ==
            AttemptsOf(attempts, operation) + (if attempt.operation == operation then {id} else {})
    ensures RepairsOf(attempts[id := attempt], operation) ==
            RepairsOf(attempts, operation) + (if attempt.operation == operation && attempt.isRepair then {id} else {})
  {
  }

  // ----- One committed transition -----

  lemma SettledRowsOf(rows: map<(CallId, string), int>, id: CallId, actual: int, scope: string)
    ensures RowsOf(OverrunRows(rows, id, {}, actual), scope) ==
            if (id, scope) in rows then RowsOf(rows, scope)[(id, scope) := Max(rows[(id, scope)], actual)]
            else RowsOf(rows, scope)
  {
  }

  lemma SettledExcessOf(rows: map<(CallId, string), int>, calls: map<CallId, Record>, record: Record, actual: int,
                        scope: string)
    requires record.id in calls && record.estimate == calls[record.id].estimate
    ensures ExcessOf(OverrunRows(rows, record.id, {}, actual), calls[record.id := record], scope) ==
            var k, before := (record.id, scope), ExcessOf(rows, calls, scope);
            if k in rows then before[k := Max(rows[k], actual) - record.estimate] else before
  {
    assert forall id :: EstimateOf(calls[record.id := record], id) == EstimateOf(calls, id);
  }

  lemma SettledBucket(t: Tables, c: Change, sanitize: Json -> Json, s: string)
    requires WellFormed(t) && c.id in t.calls && c.report.actualTokens >= 0 && s in t.buckets
    ensures var u := Settled(t, c, sanitize);
            u.buckets[s].used - ChargedTotal(u, s) == t.buckets[s].used - ChargedTotal(t, s)
  {
    var actual, k := c.report.actualTokens, (c.id, s);
    SettledRowsOf(t.reservations, c.id, actual, s);
    if k in t.reservations {
      SumReplace(RowsOf(t.reservations, s), k, Max(t.reservations[k], actual));
    }
  }

  lemma SettledConserves(t: Tables, c: Change, sanitize: Json -> Json, baseline: map<string, Bucket>)
    requires WellFormed(t) && Conserved(t, baseline) && c.id in t.calls && c.report.actualTokens >= 0
    ensures Conserved(Settled(t, c, sanitize), baseline)
  {
    var u := Settled(t, c, sanitize);
    forall s | s in u.buckets
      ensures u.buckets[s].used == ImportedUse(baseline, s) + ChargedTotal(u, s)
    {
      SettledBucket(t, c, sanitize, s);
    }
  }

  /** What a transition adds to a bucket is what it adds to the excess of the bucket's rows. */
  lemma SettledExcessTotal(rows: map<(CallId, string), int>, calls: map<CallId, Record>, record: Record, actual: int,
                           scope: string)
    requires record.id in calls && record.estimate == calls[record.id].estimate
    ensures Sum(ExcessOf(OverrunRows(rows, record.id, {}, actual), calls[record.id := record], scope)) ==
            Sum(ExcessOf(rows, calls, scope)) + Overrun(rows, record.id, scope, actual)
  {
    SettledExcessOf(rows, calls, record, actual, scope);
    var k := (record.id, scope);
    if k in rows {
      SumReplace(ExcessOf(rows, calls, scope), k, Max(rows[k], actual) - record.estimate);
    }
  }

  lemma SettledBounded(t: Tables, c: Change, sanitize: Json -> Json, baseline: map<string, Bucket>)
    requires WellFormed(t) && Bounded(t, baseline) && c.id in t.calls && c.report.actualTokens >= 0
    ensures Bounded(Settled(t, c, sanitize), baseline)
  {
    var u, record := Settled(t, c, sanitize), Moved(t.calls[c.id], c, sanitize);
    SettledCovers(t.reservations, t.calls, record, c.report.actualTokens);
    forall s | s in u.buckets && StartsWithin(baseline, s)
      ensures u.buckets[s].used <= u.buckets[s].ceiling + ExcessTotal(u, s)
    {
      SettledExcessTotal(t.reservations, t.calls, record, c.report.actualTokens, s);
    }
  }

  lemma SettledCovers(rows: map<(CallId, string), int>, calls: map<CallId, Record>, record: Record, actual: int)
    requires CoversEstimates(rows, calls)
    requires record.id in calls && record.estimate == calls[record.id].estimate
    ensures CoversEstimates(OverrunRows(rows, record.id, {}, actual), calls[record.id := record])
  {
  }

  // ----- What one event does to one call -----

  predicate Creates(t: Tables, e: Event, id: CallId) {
    e.Prepare? && e.req.id == id && id !in t.calls && PrepareStep(t, e.req, e.now, e.today).0.Ok?
  }

  predicate Moves(t: Tables, e: Event, id: CallId, sanitize: Json -> Json) {
    e.Transition? && e.change.id == id && TransitionStep(t, e.change, e.now, sanitize).0.Ok?
  }

  lemma PrepareOnCall(t: Tables, req: Request, now: real, today: string, id: CallId)
    ensures var u := PrepareStep(t, req, now, today).1;
            if Creates(t, Prepare(req, now, today), id) then
                req.estimate >= 0 && id in u.calls && u.calls[id] == NewRecord(req)
            else (id in u.calls <==> id in t.calls) && (id in t.calls ==> u.calls[id] == t.calls[id])
  {
    if PrepareStep(t, req, now, today).1 != t {
      PrepareCreates(t, req, now, today);
    }
  }

  lemma TransitionOnCall(t: Tables, c: Change, now: real, sanitize: Json -> Json, id: CallId)
    ensures var u := TransitionStep(t, c, now, sanitize).1;
            if c.id == id && TransitionStep(t, c, now, sanitize).0.Ok? then
              && id in t.calls && id in u.calls && c.report.actualTokens >= 0 && Allowed(t.calls[id].state, c.target)
              && u.calls[id] == Moved(t.calls[id], c, sanitize)
            else (id in u.calls <==> id in t.calls) && (id in t.calls ==> u.calls[id] == t.calls[id])
  {
  }

  /** What any event can do to one record. */
  lemma EffectOnCall(t: Tables, e: Event, sanitize: Json -> Json, id: CallId)
    ensures var u := Step(t, e, sanitize);
            if Creates(t, e, id) then e.req.estimate >= 0 && id in u.calls && u.calls[id] == NewRecord(e.req)
            else if Moves(t, e, id, sanitize) then
              && id in t.calls && id in u.calls && e.change.report.actualTokens >= 0
              && Allowed(t.calls[id].state, e.change.target)
              && u.calls[id] == Moved(t.calls[id], e.change, sanitize)
            else (id in u.calls <==> id in t.calls) && (id in t.calls ==> u.calls[id] == t.calls[id])
  {
    match e
    case Prepare(req, now, today) => PrepareOnCall(t, req, now, today, id);
    case Transition(change, now) => TransitionOnCall(t, change, now, sanitize, id);
    case _ =>
  }

  lemma PrepareOnRow(t: Tables, req: Request, now: real, today: string, k: (CallId, string))
    requires k in t.reservations ==> k.0 in t.calls
    ensures var after := PrepareStep(t, req, now, today).1.reservations;
            if Creates(t, Prepare(req, now, today), k.0) then k in after ==> after[k] == req.estimate
            else (k in after <==> k in t.reservations) && (k in after ==> after[k] == t.reservations[k])
  {
    if PrepareStep(t, req, now, today).1 != t {
      PrepareCreates(t, req, now, today);
      ReservedRow(t.reservations, req.id, EffectiveScopes(req, today).value, req.estimate, k);
    }
  }

  lemma TransitionOnRow(t: Tables, c: Change, now: real, sanitize: Json -> Json, k: (CallId, string))
    ensures var after, done :=
            TransitionStep(t, c, now, sanitize).1.reservations, TransitionStep(t, c, now, sanitize).0.Ok?;
            && (k in after <==> k in t.reservations)
            && (k in after && c.id == k.0 && done ==> after[k] == Max(t.reservations[k], c.report.actualTokens))
            && (k in after && !(c.id == k.0 && done) ==> after[k] == t.reservations[k])
  {
  }

  lemma EffectOnRow(t: Tables, e: Event, sanitize: Json -> Json, id: CallId, scope: string)
    requires (id, scope) in t.reservations ==> id in t.calls
    ensures var before, after, k := t.reservations, Step(t, e, sanitize).reservations, (id, scope);
            if Creates(t, e, id) then k in after ==> after[k] == e.req.estimate
            else if Moves(t, e, id, sanitize) then
              (k in after <==> k in before) &&
                (k in before ==> after[k] == Max(before[k], e.change.report.actualTokens))
            else (k in after <==> k in before) && (k in before ==> after[k] == before[k])
  {
    match e
    case Prepare(req, now, today) => PrepareOnRow(t, req, now, today, (id, scope));
    case Transition(change, now) => TransitionOnRow(t, change, now, sanitize, (id, scope));
    case _ =>
  }

  lemma ReservedRow(rows: map<(CallId, string), int>, id: CallId, scopes: map<string, int>, estimate: int,
                    k: (CallId, string))
    ensures var after := ReservedRows(rows, id, scopes, {}, estimate);
            && (k in after <==> k in rows || (k.0 == id && k.1 in scopes))
            && (k in after ==> after[k] == if k.0 == id && k.1 in scopes then estimate else rows[k])
  {
  }

  // ----- Whole runs -----

  ghost predicate Sound(t: Tables, baseline: map<string, Bucket>) {
    WellFormed(t) && Conserved(t, baseline) && Bounded(t, baseline) && WithinOperationLimits(t)
  }

  lemma ReservedSound(t: Tables, req: Request, now: real, today: string, baseline: map<string, Bucket>)
    requires Sound(t, baseline) && PrepareStep(t, req, now, today).1 != t
    ensures Sound(PrepareStep(t, req, now, today).1, baseline)
  {
    PrepareCreates(t, req, now, today);
    var scopes := EffectiveScopes(req, today).value;
    ReservedKeepsForm(t, req, scopes);
    ReservedBounded(t, req, scopes, baseline);
    ReservedConserves(t, req, scopes, baseline);
    ReservedWithinLimits(t, req, scopes);
  }

  lemma SettledSound(t: Tables, c: Change, now: real, sanitize: Json -> Json, baseline: map<string, Bucket>)
    requires Sound(t, baseline)
    ensures Sound(TransitionStep(t, c, now, sanitize).1, baseline)
  {
    if TransitionStep(t, c, now, sanitize).0.Ok? {
      SettledKeepsForm(t, c, sanitize);
      SettledConserves(t, c, sanitize, baseline);
      SettledBounded(t, c, sanitize, baseline);
    }
  }

  /** Any event keeps the tables well formed. */
  lemma StepKeepsForm(t: Tables, e: Event, sanitize: Json -> Json)
    requires WellFormed(t)
    ensures WellFormed(Step(t, e, sanitize))
  {
    if Step(t, e, sanitize) != t {
      match e
      case Prepare(req, now, today) =>
        PrepareCreates(t, req, now, today);
        ReservedKeepsForm(t, req, EffectiveScopes(req, today).value);
      case Transition(change, now) => SettledKeepsForm(t, change, sanitize);
      case ImportBaseline(i) =>
      case Runtime(operations, newLimits) =>
    }
  }

  lemma {:induction false} Invariants(events: seq<Event>, sanitize: Json -> Json)
    ensures Sound(Replay(events, sanitize), Baseline(events, sanitize))
  {
    if events == [] {
    } else {
      var init, e := events[..|events| - 1], events[|events| - 1];
      Invariants(init, sanitize);
      StepSound(Replay(init, sanitize), e, sanitize, Baseline(init, sanitize));
    }
  }

  lemma StepSound(t: Tables, e: Event, sanitize: Json -> Json, baseline: map<string, Bucket>)
    requires Sound(t, baseline)
    ensures Sound(Step(t, e, sanitize),
                  if e.ImportBaseline? && Commits(t, e, sanitize) then e.baseline.buckets else baseline)
  {
    if Step(t, e, sanitize) != t {
      match e
      case Prepare(req, now, today) => ReservedSound(t, req, now, today, baseline);
      case Transition(change, now) => SettledSound(t, change, now, sanitize, baseline);
      case ImportBaseline(i) => ImportAccounts(t, i);
      case Runtime(operations, newLimits) => RuntimeSound(t, operations, newLimits, baseline);
    }
  }

  lemma RuntimeSound(t: Tables, operations: map<string, Operation>, newLimits: map<string, Limit>,
                     baseline: map<string, Bucket>)
    requires Sound(t, baseline)
    ensures Sound(t.(operations := operations, limits := newLimits + t.limits), baseline)
  {
  }

  lemma ImportAccounts(t: Tables, i: Import)
    requires WellFormed(t) && ImportStep(t, i).0 == Ok(Imported)
    ensures Sound(ImportStep(t, i).1, i.buckets)
  {
    var u := ImportStep(t, i).1;
    forall s
      ensures RowsOf(u.reservations, s) == map[] && ExcessOf(u.reservations, u.calls, s) == map[]
    {
    }
  }
}
