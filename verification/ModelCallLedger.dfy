/**
 The durable ledger of external model calls (agent/model_call_ledger.py) and the
 one-shot import of an earlier usage baseline (agent/token_budget_migration.py).

 `Tables` is the committed content of the SQLite tables. Each `BEGIN IMMEDIATE`
 block is one function on `Tables`, whose result is the block's outcome and the
 tables after it; the class `Ledger` runs the same blocks row by row and is proved
 against those functions.
 */
module ModelCallLedger {
  import opened Wrappers

  /** A JSON document in its serialised form. */
  type Json = string

  datatype CallState =
    | Prepared
    | DispatchIntent
    | Succeeded
    | FailedRetryableNotSent
    | FailedFinal
    | OutcomeUnknown
  {
    predicate Terminal() {
      !Prepared? && !DispatchIntent?
    }
  }

  /** The digest of these four fields is the primary key; it is taken to be injective. */
  datatype CallId = CallId(provider: string, purpose: string, logical: string, attempt: int)

  datatype Record = Record(
    id: CallId, state: CallState, endpoint: string, model: string, payloadDigest: string,
    estimate: nat, session: string, responseDigest: string, actualTokens: nat,
    errorClass: string, response: Option<Json>, revision: nat)

  datatype Bucket = Bucket(used: int, ceiling: int)
  datatype Attempt = Attempt(operation: string, isRepair: bool)
  datatype Operation = Operation(owner: string, running: bool, leaseUntil: real)
  datatype Limit = Limit(modelCalls: int, repairCalls: int)
  datatype Binding = Binding(sourceDigest: string, buckets: map<string, Bucket>)

  datatype Tables = Tables(
    calls: map<CallId, Record>,
    buckets: map<string, Bucket>,
    reservations: map<(CallId, string), int>,
    attempts: map<CallId, Attempt>,
    operations: map<string, Operation>,
    limits: map<string, Limit>,
    migrations: map<string, Binding>)

  const EMPTY_TABLES := Tables(map[], map[], map[], map[], map[], map[], map[])

  datatype Error = ValueError | ModelCallConflict | BudgetExceeded

  datatype Outcome<+T> = Ok(value: T) | Raise(error: Error)

  /** An operation together with the owner that claims it. */
  datatype Claim = Claim(operation: string, owner: string)

  datatype Request = Request(
    id: CallId, endpoint: string, model: string, payloadDigest: string, estimate: int,
    session: string, claim: Option<Claim>, scopes: Option<map<string, int>>,
    dailyScope: Option<string>)

  datatype Report = Report(
    responseDigest: string, actualTokens: int, errorClass: string, response: Option<Json>)

  const NO_REPORT := Report("", 0, "", None)

  datatype Change = Change(
    id: CallId, expected: CallState, target: CallState, report: Report,
    claim: Option<Claim>, recoveryOnly: bool)

  /** Foreign keys the blocks rely on: only recorded calls hold reservations or attempts. */
  ghost predicate WellFormed(t: Tables) {
    && (forall id :: id in t.calls ==> t.calls[id].id == id)
    && (forall k :: k in t.reservations ==> k.0 in t.calls && k.1 in t.buckets && t.reservations[k] >= 0)
    && (forall id :: id in t.attempts ==> id in t.calls)
  }

  // ----- Reading the runtime tables -----

  predicate Live(t: Tables, operation: string, now: real) {
    operation in t.operations && t.operations[operation].running && t.operations[operation].leaseUntil > now
  }

  predicate Owns(t: Tables, claim: Claim, now: real) {
    Live(t, claim.operation, now) && t.operations[claim.operation].owner == claim.owner
  }

  function BoundOperation(t: Tables, id: CallId): Option<string> {
    if id in t.attempts then Some(t.attempts[id].operation) else None
  }

  function ClaimedOperation(claim: Option<Claim>): Option<string> {
    if claim.Some? then Some(claim.value.operation) else None
  }

  function AttemptsOf(attempts: map<CallId, Attempt>, operation: string): set<CallId> {
    set id | id in attempts && attempts[id].operation == operation
  }

  function RepairsOf(attempts: map<CallId, Attempt>, operation: string): set<CallId> {
    set id | id in attempts && attempts[id].operation == operation && attempts[id].isRepair
  }

  predicate IsRepair(purpose: string) {
    purpose in {"repair", "candidate", "nlu_repair"}
  }

  // ----- prepare -----

  predicate ValidRequest(req: Request) {
    && req.estimate >= 0
    && (req.scopes.Some? ==>
          && req.scopes.value != map[]
          && forall s :: s in req.scopes.value ==> s != "" && req.scopes.value[s] >= 0)
  }

  /** The scopes a request is charged to, its daily scope renamed to the day `today`. */
  function EffectiveScopes(req: Request, today: string): (r: Outcome<map<string, int>>)
    ensures r.Ok? && ValidRequest(req) ==> forall s :: s in r.value ==> r.value[s] >= 0
  {
    var given := if req.scopes.Some? then req.scopes.value else map[];
    match req.dailyScope
    case None => Ok(given)
    case Some(daily) =>
      if daily !in given then Raise(ValueError)
      else Ok((given - {daily})[daily + ":" + today := given[daily]])
  }

  predicate SameIdentity(record: Record, req: Request) {
    && record.endpoint == req.endpoint
    && record.model == req.model
    && record.payloadDigest == req.payloadDigest
    && record.session == req.session
  }

  function NewRecord(req: Request): Record
    requires req.estimate >= 0
  {
    Record(req.id, Prepared, req.endpoint, req.model, req.payloadDigest, req.estimate,
           req.session, "", 0, "", None, 1)
  }

  function Min(a: int, b: int): int {
    if a <= b then a else b
  }

  /** The ceiling in force for a scope: the lower of the stored and the requested one. */
  function EffectiveCeiling(buckets: map<string, Bucket>, scope: string, ceiling: int): int {
    if scope in buckets then Min(ceiling, buckets[scope].ceiling) else ceiling
  }

  function UsedOf(buckets: map<string, Bucket>, scope: string): int {
    if scope in buckets then buckets[scope].used else 0
  }

  predicate Admits(buckets: map<string, Bucket>, scope: string, ceiling: int, estimate: int) {
    UsedOf(buckets, scope) + estimate <= EffectiveCeiling(buckets, scope, ceiling)
  }

  predicate AllAdmit(buckets: map<string, Bucket>, scopes: map<string, int>, estimate: int) {
    forall s :: s in scopes ==> Admits(buckets, s, scopes[s], estimate)
  }

  function Charged(buckets: map<string, Bucket>, scope: string, ceiling: int, estimate: int): Bucket {
    Bucket(UsedOf(buckets, scope) + estimate, EffectiveCeiling(buckets, scope, ceiling))
  }

  predicate WithinLimits(t: Tables, operation: string, isRepair: bool) {
    && operation in t.limits
    && |AttemptsOf(t.attempts, operation)| < t.limits[operation].modelCalls
    && (isRepair ==> |RepairsOf(t.attempts, operation)| < t.limits[operation].repairCalls)
  }

  /** The buckets once every scope but those in `skip` is charged. */
  function ReservedBuckets(buckets: map<string, Bucket>, scopes: map<string, int>, skip: set<string>, estimate: int):
    map<string, Bucket>
  {
    buckets + map s | s in scopes && s !in skip :: Charged(buckets, s, scopes[s], estimate)
  }

  function ReservedRows(rows: map<(CallId, string), int>, id: CallId, scopes: map<string, int>, skip: set<string>,
                        estimate: int): map<(CallId, string), int>
  {
    rows + map s | s in scopes && s !in skip :: (id, s) := estimate
  }

  lemma ReserveOneBucket(buckets: map<string, Bucket>, scopes: map<string, int>, skip: set<string>, scope: string,
                         estimate: int)
    requires scope in scopes && scope in skip
    ensures var before := ReservedBuckets(buckets, scopes, skip, estimate);
            && (Admits(before, scope, scopes[scope], estimate) <==> Admits(buckets, scope, scopes[scope], estimate))
            && ReservedBuckets(buckets, scopes, skip - {scope}, estimate) ==
               before[scope := Charged(before, scope, scopes[scope], estimate)]
  {
  }

  lemma ReserveOneRow(rows: map<(CallId, string), int>, id: CallId, scopes: map<string, int>, skip: set<string>,
                      scope: string, estimate: int)
    requires scope in scopes && scope in skip
    ensures ReservedRows(rows, id, scopes, skip - {scope}, estimate) ==
            ReservedRows(rows, id, scopes, skip, estimate)[(id, scope) := estimate]
  {
  }

  /** The tables after a new attempt is admitted and charged to every scope. */
  function Reserved(t: Tables, req: Request, scopes: map<string, int>): Tables
    requires req.estimate >= 0
  {
    t.(calls := t.calls[req.id := NewRecord(req)],
       buckets := ReservedBuckets(t.buckets, scopes, {}, req.estimate),
       reservations := ReservedRows(t.reservations, req.id, scopes, {}, req.estimate),
       attempts := if req.claim.None? then t.attempts
         else t.attempts[req.id := Attempt(req.claim.value.operation, IsRepair(req.id.purpose))])
  }

  function PrepareStep(t: Tables, req: Request, now: real, today: string): (Outcome<Record>, Tables) {
    if !ValidRequest(req) then (Raise(ValueError), t) else
    var scopes := EffectiveScopes(req, today);
    if scopes.Raise? then (Raise(scopes.error), t)
    else if req.claim.Some? && !Owns(t, req.claim.value, now) then (Raise(ModelCallConflict), t)
    else if req.id in t.calls then
      if BoundOperation(t, req.id) != ClaimedOperation(req.claim) || !SameIdentity(t.calls[req.id], req)
      then (Raise(ModelCallConflict), t)
      else (Ok(t.calls[req.id]), t)
    else if req.claim.Some? && !WithinLimits(t, req.claim.value.operation, IsRepair(req.id.purpose)) then
      (Raise(BudgetExceeded), t)
    else if !AllAdmit(t.buckets, scopes.value, req.estimate) then
      (Raise(BudgetExceeded), t)
    else (Ok(NewRecord(req)), Reserved(t, req, scopes.value))
  }

  // ----- transition -----

  predicate Allowed(expected: CallState, target: CallState) {
    match expected
    case Prepared => target.DispatchIntent? || target.FailedRetryableNotSent? || target.FailedFinal?
    case DispatchIntent => target.Terminal()
    case _ => false
  }

  /** The checks that `transition` makes before it looks at the call's own record. */
  predicate Authorised(t: Tables, c: Change, now: real) {
    var bound := BoundOperation(t, c.id);
    && (c.target.DispatchIntent? ==> bound == ClaimedOperation(c.claim))
    && (c.recoveryOnly ==>
          && c.expected.DispatchIntent? && c.target.OutcomeUnknown?
          && (bound.Some? ==> !Live(t, bound.value, now)))
    && (c.target.DispatchIntent? && c.claim.Some? ==> Owns(t, c.claim.value, now))
  }

  function Max(a: int, b: int): int {
    if a >= b then a else b
  }

  function Moved(record: Record, c: Change, sanitize: Json -> Json): Record
    requires c.report.actualTokens >= 0
  {
    record.(state := c.target,
            responseDigest := c.report.responseDigest,
            actualTokens := c.report.actualTokens,
            errorClass := c.report.errorClass,
            response := if c.report.response.Some? then Some(sanitize(c.report.response.value)) else record.response,
            revision := record.revision + 1)
  }

  /** The call's rows raised to the usage reported, except those of the scopes in `skip`. */
  function OverrunRows(rows: map<(CallId, string), int>, id: CallId, skip: set<string>, actual: int):
    map<(CallId, string), int>
  {
    map k | k in rows :: if k.0 == id && k.1 !in skip then Max(rows[k], actual) else rows[k]
  }

  function Overrun(rows: map<(CallId, string), int>, id: CallId, scope: string, actual: int): int {
    if (id, scope) in rows then Max(0, actual - rows[(id, scope)]) else 0
  }

  function OverrunBuckets(buckets: map<string, Bucket>, rows: map<(CallId, string), int>, id: CallId,
                          skip: set<string>, actual: int): map<string, Bucket>
  {
    map s | s in buckets ::
      if s in skip then buckets[s]
      else Bucket(buckets[s].used + Overrun(rows, id, s, actual), buckets[s].ceiling)
  }

  lemma NoneOverrun(buckets: map<string, Bucket>, rows: map<(CallId, string), int>, id: CallId, skip: set<string>,
                    actual: int)
    requires forall k :: k in rows && k.0 == id ==> k.1 in skip
    ensures OverrunRows(rows, id, skip, actual) == rows && OverrunBuckets(buckets, rows, id, skip, actual) == buckets
  {
  }

  lemma OverrunOne(buckets: map<string, Bucket>, rows: map<(CallId, string), int>, id: CallId, skip: set<string>,
                   scope: string, actual: int)
    requires (id, scope) in rows && scope in buckets && scope in skip
    ensures OverrunRows(rows, id, skip - {scope}, actual) ==
            OverrunRows(rows, id, skip, actual)[(id, scope) := Max(rows[(id, scope)], actual)]
    ensures OverrunBuckets(buckets, rows, id, skip - {scope}, actual) ==
            OverrunBuckets(buckets, rows, id, skip, actual)[scope :=
              Bucket(buckets[scope].used + Max(0, actual - rows[(id, scope)]), buckets[scope].ceiling)]
  {
  }

  /** Every reservation of the call is raised to the reported usage; its bucket pays the difference. */
  function Settled(t: Tables, c: Change, sanitize: Json -> Json): Tables
    requires c.id in t.calls && c.report.actualTokens >= 0
  {
    var actual := c.report.actualTokens;
    t.(calls := t.calls[c.id := Moved(t.calls[c.id], c, sanitize)],
       buckets := OverrunBuckets(t.buckets, t.reservations, c.id, {}, actual),
       reservations := OverrunRows(t.reservations, c.id, {}, actual))
  }

  function TransitionStep(t: Tables, c: Change, now: real, sanitize: Json -> Json): (Outcome<Record>, Tables) {
    if !Allowed(c.expected, c.target) || !Authorised(t, c, now)
       || c.id !in t.calls || t.calls[c.id].state != c.expected then (Raise(ModelCallConflict), t)
    else if c.report.actualTokens < 0 then (Raise(ValueError), t)
    else (Ok(Moved(t.calls[c.id], c, sanitize)), Settled(t, c, sanitize))
  }

  function RecoveryOf(id: CallId): Change {
    Change(id, DispatchIntent, OutcomeUnknown, Report("", 0, "recovered_dispatch_intent", None), None, true)
  }

  lemma ReservedKeepsForm(t: Tables, req: Request, scopes: map<string, int>)
    requires WellFormed(t) && req.estimate >= 0 && req.id !in t.calls
    ensures WellFormed(Reserved(t, req, scopes))
  {
  }

  lemma SettledKeepsForm(t: Tables, c: Change, sanitize: Json -> Json)
    requires WellFormed(t) && c.id in t.calls && c.report.actualTokens >= 0
    ensures WellFormed(Settled(t, c, sanitize))
  {
  }

  // ----- get and load_response -----

  /** The record a reader sees under an id. */
  function Read(calls: map<CallId, Record>, id: CallId): Option<Record> {
    if id in calls then Some(calls[id]) else None
  }

  /** The response a reader gets of a record. */
  function Loaded(record: Record): Outcome<Json> {
    if record.state.Succeeded? && record.response.Some? then Ok(record.response.value) else Raise(ModelCallConflict)
  }

  // ----- recover_uncertain -----

  /** A call that no live operation holds: it is unbound, or its operation is over or expired. */
  predicate Recoverable(t: Tables, id: CallId, now: real) {
    var bound := BoundOperation(t, id);
    bound.Some? ==> !Live(t, bound.value, now)
  }

  function Intents(calls: map<CallId, Record>): set<CallId> {
    set id | id in calls && calls[id].state.DispatchIntent?
  }

  function Orphans(t: Tables, now: real): set<CallId> {
    set id | id in Intents(t.calls) && Recoverable(t, id, now)
  }

  function Closed(calls: map<CallId, Record>, closed: set<CallId>, sanitize: Json -> Json): map<CallId, Record> {
    map id | id in calls :: if id in closed then Moved(calls[id], RecoveryOf(id), sanitize) else calls[id]
  }

  function Changed(before: map<CallId, Record>, after: map<CallId, Record>): set<CallId> {
    set id | id in before && id in after && before[id] != after[id]
  }

  /** A recovery closes an intent exactly when no live operation holds it, and touches nothing else. */
  lemma RecoveryEffect(t: Tables, id: CallId, now: real, sanitize: Json -> Json)
    requires WellFormed(t) && id in t.calls && t.calls[id].state.DispatchIntent?
    ensures TransitionStep(t, RecoveryOf(id), now, sanitize) ==
            if Recoverable(t, id, now)
            then (Ok(Moved(t.calls[id], RecoveryOf(id), sanitize)),
                  t.(calls := t.calls[id := Moved(t.calls[id], RecoveryOf(id), sanitize)]))
            else (Raise(ModelCallConflict), t)
  {
    var settled := Settled(t, RecoveryOf(id), sanitize);
    assert settled.buckets == t.buckets;
    assert settled.reservations == t.reservations;
  }

  lemma ClosedOne(calls: map<CallId, Record>, closed: set<CallId>, id: CallId, sanitize: Json -> Json)
    requires id in calls && id !in closed
    ensures Closed(calls, closed + {id}, sanitize) ==
            Closed(calls, closed, sanitize)[id := Moved(calls[id], RecoveryOf(id), sanitize)]
  {
  }

  lemma ClosedKeepsForm(t: Tables, closed: set<CallId>, sanitize: Json -> Json)
    requires WellFormed(t)
    ensures WellFormed(t.(calls := Closed(t.calls, closed, sanitize)))
  {
  }

  lemma CloseOne(t: Tables, closed: set<CallId>, id: CallId, now: real, sanitize: Json -> Json)
    requires WellFormed(t) && id in Intents(t.calls) && id !in closed
    ensures var u := t.(calls := Closed(t.calls, closed, sanitize));
            var r := TransitionStep(u, RecoveryOf(id), now, sanitize);
            && WellFormed(u)
            && (r.0.Ok? <==> Recoverable(t, id, now))
            && r.1 == if r.0.Ok? then t.(calls := Closed(t.calls, closed + {id}, sanitize)) else u
  {
    var u := t.(calls := Closed(t.calls, closed, sanitize));
    ClosedKeepsForm(t, closed, sanitize);
    RecoveryEffect(u, id, now, sanitize);
    ClosedOne(t.calls, closed, id, sanitize);
  }

  /** One step of a sweep keeps it between the orphans of its first and last moments. */
  lemma SweepStep(t: Tables, todo: set<CallId>, closed: set<CallId>, id: CallId, first: real, now: real, last: real)
    requires first <= now <= last && id in Intents(t.calls)
    requires Orphans(t, first) - todo - {id} <= closed <= Orphans(t, last)
    ensures var after := if Recoverable(t, id, now) then closed + {id} else closed;
            Orphans(t, first) - todo <= after <= Orphans(t, last)
  {
  }

  lemma ChangedIsClosed(t: Tables, closed: set<CallId>, sanitize: Json -> Json)
    requires WellFormed(t) && closed <= Intents(t.calls)
    ensures Changed(t.calls, Closed(t.calls, closed, sanitize)) == closed
    ensures WellFormed(t.(calls := Closed(t.calls, closed, sanitize)))
  {
    ClosedKeepsForm(t, closed, sanitize);
  }

  // ----- import_frozen_baseline -----

  datatype ImportResult = Imported | AlreadyImported

  datatype Import = Import(sourceId: string, sourceDigest: string, buckets: map<string, Bucket>)

  predicate IsDigit(c: char) { '0' <= c <= '9' }

  predicate IsHex64(s: string) {
    |s| == 64 && forall i :: 0 <= i < 64 ==> IsDigit(s[i]) || 'a' <= s[i] <= 'f'
  }

  /** A 64-digit hexadecimal name, optionally followed by a colon and a date. */
  predicate IsMappedScope(s: string) {
    || IsHex64(s)
    || (|s| == 75 && IsHex64(s[..64]) && s[64] == ':' && s[69] == '-' && s[72] == '-'
        && forall i :: 65 <= i < 75 && i != 69 && i != 72 ==> IsDigit(s[i]))
  }

  predicate ValidImport(i: Import) {
    && IsHex64(i.sourceId) && IsHex64(i.sourceDigest) && i.buckets != map[]
    && forall s :: s in i.buckets ==> IsMappedScope(s) && i.buckets[s].used >= 0 && i.buckets[s].ceiling >= 0
  }

  predicate Untouched(t: Tables) {
    t.calls == map[] && t.buckets == map[] && t.reservations == map[] && t.migrations == map[]
  }

  function ImportStep(t: Tables, i: Import): (Outcome<ImportResult>, Tables) {
    var binding := Binding(i.sourceDigest, i.buckets);
    if !ValidImport(i) then (Raise(ValueError), t)
    else if i.sourceId in t.migrations then
      if t.migrations[i.sourceId] != binding then (Raise(ModelCallConflict), t) else (Ok(AlreadyImported), t)
    else if !Untouched(t) then (Raise(ModelCallConflict), t)
    else (Ok(Imported), t.(buckets := i.buckets, migrations := t.migrations[i.sourceId := binding]))
  }

  // ----- The class -----

  /** `rows` lists every record of one logical request once, by attempt. */
  ghost predicate IsListing(calls: map<CallId, Record>, logical: string, rows: seq<Record>) {
    multiset(rows) == multiset(RecordsOf(calls, logical)) && ByAttempt(rows)
  }

  function RecordsOf(calls: map<CallId, Record>, logical: string): set<Record> {
    set id | id in calls && id.logical == logical :: calls[id]
  }

  predicate ByAttempt(rows: seq<Record>) {
    forall i, j :: 0 <= i < j < |rows| ==> rows[i].id.attempt <= rows[j].id.attempt
  }

  function InsertByAttempt(rows: seq<Record>, row: Record): (r: seq<Record>)
    ensures multiset(r) == multiset(rows) + multiset{row}
  {
    if rows == [] || rows[|rows| - 1].id.attempt <= row.id.attempt then rows + [row]
    else
      assert rows == rows[..|rows| - 1] + [rows[|rows| - 1]];
      InsertByAttempt(rows[..|rows| - 1], row) + [rows[|rows| - 1]]
  }

  lemma {:induction false} InsertKeepsOrder(rows: seq<Record>, row: Record)
    requires ByAttempt(rows)
    ensures ByAttempt(InsertByAttempt(rows, row))
  {
    if rows == [] || rows[|rows| - 1].id.attempt <= row.id.attempt {
    } else {
      var init, last := rows[..|rows| - 1], rows[|rows| - 1];
      InsertKeepsOrder(init, row);
      var s := InsertByAttempt(init, row);
      forall i | 0 <= i < |s|
        ensures s[i].id.attempt <= last.id.attempt
      {
        assert s[i] in multiset(init) + multiset{row};
      }
      LastByAttempt(s, last);
    }
  }

  lemma LastByAttempt(rows: seq<Record>, last: Record)
    requires ByAttempt(rows) && forall i :: 0 <= i < |rows| ==> rows[i].id.attempt <= last.id.attempt
    ensures ByAttempt(rows + [last])
  {
  }

  class Ledger {
    var calls: map<CallId, Record>
    var buckets: map<string, Bucket>
    var reservations: map<(CallId, string), int>
    var attempts: map<CallId, Attempt>
    var operations: map<string, Operation>
    var limits: map<string, Limit>
    var migrations: map<string, Binding>
    /** What encrypting and decrypting a document leaves of it. */
    const sanitize: Json -> Json

    function Snapshot(): Tables
      reads this
    {
      Tables(calls, buckets, reservations, attempts, operations, limits, migrations)
    }

    ghost predicate Valid()
      reads this
    {
      WellFormed(Snapshot())
    }

    constructor (sanitize: Json -> Json)
      ensures Valid() && Snapshot() == EMPTY_TABLES && this.sanitize == sanitize
    {
      calls, buckets, reservations, attempts := map[], map[], map[], map[];
      operations, limits, migrations := map[], map[], map[];
      this.sanitize := sanitize;
    }

    /** The open transaction's view of the two token tables, built scope by scope in any order. */
    static method ReserveScopes(
        buckets: map<string, Bucket>, reservations: map<(CallId, string), int>, id: CallId, estimate: nat,
        scopes: map<string, int>)
      returns (r: Outcome<(map<string, Bucket>, map<(CallId, string), int>)>)
      ensures r.Ok? <==> AllAdmit(buckets, scopes, estimate)
      ensures r.Ok? ==> r.value.0 == ReservedBuckets(buckets, scopes, {}, estimate)
      ensures r.Ok? ==> r.value.1 == ReservedRows(reservations, id, scopes, {}, estimate)
      ensures r.Raise? ==> r.error == BudgetExceeded
    {
      var newBuckets, newReservations := buckets, reservations;
      var todo := scopes.Keys;
      assert newBuckets == ReservedBuckets(buckets, scopes, todo, estimate);
      assert newReservations == ReservedRows(reservations, id, scopes, todo, estimate);
      while todo != {}
        invariant todo <= scopes.Keys
        invariant forall s :: s in scopes && s !in todo ==> Admits(buckets, s, scopes[s], estimate)
        invariant newBuckets == ReservedBuckets(buckets, scopes, todo, estimate)
        invariant newReservations == ReservedRows(reservations, id, scopes, todo, estimate)
        decreases todo
      {
        var scope :| scope in todo;
        ReserveOneBucket(buckets, scopes, todo, scope, estimate);
        ReserveOneRow(reservations, id, scopes, todo, scope, estimate);
        if !Admits(newBuckets, scope, scopes[scope], estimate) {
          return Raise(BudgetExceeded);
        }
        newBuckets := newBuckets[scope := Charged(newBuckets, scope, scopes[scope], estimate)];
        newReservations := newReservations[(id, scope) := estimate];
        todo := todo - {scope};
      }
      r := Ok((newBuckets, newReservations));
    }

    /** Reserve an attempt and its tokens in one transaction; the scopes come in any order. */
    method Prepare(req: Request, now: real, today: string) returns (r: Outcome<Record>)
      requires Valid()
      modifies this
      ensures Valid()
      ensures (r, Snapshot()) == PrepareStep(old(Snapshot()), req, now, today)
    {
      if !ValidRequest(req) {
        return Raise(ValueError);
      }
      var scopes := EffectiveScopes(req, today);
      if scopes.Raise? {
        return Raise(scopes.error);
      }
      if req.claim.Some? && !Owns(Snapshot(), req.claim.value, now) {
        return Raise(ModelCallConflict);
      }
      if req.id in calls {
        if BoundOperation(Snapshot(), req.id) != ClaimedOperation(req.claim) || !SameIdentity(calls[req.id], req) {
          return Raise(ModelCallConflict);
        }
        return Ok(calls[req.id]);
      }
      var newAttempts := attempts;
      if req.claim.Some? {
        var operation, isRepair := req.claim.value.operation, IsRepair(req.id.purpose);
        if !WithinLimits(Snapshot(), operation, isRepair) {
          return Raise(BudgetExceeded);
        }
        newAttempts := newAttempts[req.id := Attempt(operation, isRepair)];
      }
      var charged := ReserveScopes(buckets, reservations, req.id, req.estimate, scopes.value);
      if charged.Raise? {
        return Raise(charged.error);
      }
      buckets, reservations := charged.value.0, charged.value.1;
      attempts := newAttempts;
      calls := calls[req.id := NewRecord(req)];
      assert Snapshot() == Reserved(old(Snapshot()), req, scopes.value);
      ReservedKeepsForm(old(Snapshot()), req, scopes.value);
      r := Ok(NewRecord(req));
    }

    /** Raise the call's reservations to the usage reported, row by row in any order. */
    static method ChargeOverruns(
        buckets: map<string, Bucket>, reservations: map<(CallId, string), int>, id: CallId, actual: nat)
      returns (newBuckets: map<string, Bucket>, newReservations: map<(CallId, string), int>)
      requires forall k :: k in reservations ==> k.1 in buckets && reservations[k] >= 0
      ensures newBuckets == OverrunBuckets(buckets, reservations, id, {}, actual)
      ensures newReservations == OverrunRows(reservations, id, {}, actual)
    {
      newBuckets, newReservations := buckets, reservations;
      var todo := set k | k in reservations && k.0 == id :: k.1;
      NoneOverrun(buckets, reservations, id, todo, actual);
      while todo != {}
        invariant forall s :: s in todo ==> (id, s) in reservations
        invariant newBuckets == OverrunBuckets(buckets, reservations, id, todo, actual)
        invariant newReservations == OverrunRows(reservations, id, todo, actual)
        decreases todo
      {
        var scope :| scope in todo;
        var charged := newReservations[(id, scope)];
        if actual > charged {
          newBuckets := newBuckets[scope := newBuckets[scope].(used := newBuckets[scope].used + actual - charged)];
          newReservations := newReservations[(id, scope) := actual];
        }
        OverrunOne(buckets, reservations, id, todo, scope, actual);
        todo := todo - {scope};
      }
    }

    /** Compare-and-swap a call from one state to another, charging reported overruns row by row. */
    method Transition(c: Change, now: real) returns (r: Outcome<Record>)
      requires Valid()
      modifies this`calls, this`buckets, this`reservations
      ensures Valid()
      ensures (r, Snapshot()) == TransitionStep(old(Snapshot()), c, now, sanitize)
    {
      if !Allowed(c.expected, c.target) || !Authorised(Snapshot(), c, now) {
        return Raise(ModelCallConflict);
      }
      if c.id !in calls || calls[c.id].state != c.expected {
        return Raise(ModelCallConflict);
      }
      var actual := c.report.actualTokens;
      if actual < 0 {
        return Raise(ValueError);
      }
      SettledKeepsForm(Snapshot(), c, sanitize);
      var newBuckets, newReservations := ChargeOverruns(buckets, reservations, c.id, actual);
      r := Ok(Moved(calls[c.id], c, sanitize));
      calls := calls[c.id := r.value];
      buckets, reservations := newBuckets, newReservations;
    }

    /** Try to close one intent of the tables `before`, of which `closed` are already closed. */
    method RecoverOne(ghost before: Tables, ghost closed: set<CallId>, id: CallId, now: real) returns (moved: bool)
      requires WellFormed(before) && id in Intents(before.calls) - closed
      requires Snapshot() == before.(calls := Closed(before.calls, closed, sanitize))
      modifies this`calls, this`buckets, this`reservations
      ensures moved <==> Recoverable(before, id, now)
      ensures Snapshot() ==
              before.(calls := Closed(before.calls, if moved then closed + {id} else closed, sanitize))
    {
      CloseOne(before, closed, id, now, sanitize);
      var r := Transition(RecoveryOf(id), now);
      moved := r.Ok?;
    }

    /**
     Close the dispatch intents left behind by crashed workers, in any order; `clock(i)` is
     the time read in the i-th transaction. Every intent already without a live operation at
     the start is closed, and none that still has one at the end: with one clock reading,
     exactly those without. Nothing but the closed records changes.
     */
    method RecoverUncertain(clock: nat -> real) returns (count: nat)
      requires Valid()
      requires forall i: nat, j: nat :: i <= j ==> clock(i) <= clock(j)
      modifies this`calls, this`buckets, this`reservations
      ensures Valid()
      ensures Snapshot() == old(Snapshot()).(calls := Closed(old(calls), Changed(old(calls), calls), sanitize))
      ensures Orphans(old(Snapshot()), clock(0)) <= Changed(old(calls), calls)
      ensures Changed(old(calls), calls) <= Orphans(old(Snapshot()), clock(|Intents(old(calls))|))
      ensures count == |Changed(old(calls), calls)|
    {
      ghost var before := Snapshot();
      var todo, step: nat := Intents(calls), 0;
      count := 0;
      ghost var closed: set<CallId> := {};
      assert calls == Closed(before.calls, closed, sanitize);
      while todo != {}
        invariant todo <= Intents(before.calls) && closed <= Intents(before.calls) - todo
        invariant step + |todo| == |Intents(before.calls)| && count == |closed|
        invariant Snapshot() == before.(calls := Closed(before.calls, closed, sanitize))
        invariant Orphans(before, clock(0)) - todo <= closed <= Orphans(before, clock(|Intents(before.calls)|))
        decreases todo
      {
        var id :| id in todo;
        todo := todo - {id};
        SweepStep(before, todo, closed, id, clock(0), clock(step), clock(|Intents(before.calls)|));
        var moved := RecoverOne(before, closed, id, clock(step));
        if moved {
          count := count + 1;
          closed := closed + {id};
        }
        step := step + 1;
      }
      ChangedIsClosed(before, closed, sanitize);
    }

    method Get(id: CallId) returns (r: Option<Record>)
      ensures r == Read(calls, id)
    {
      if id in calls {
        return Some(calls[id]);
      }
      r := None;
    }

    /** Import a frozen baseline into an empty ledger; a matching replay is a no-op. */
    method ImportFrozenBaseline(i: Import) returns (r: Outcome<ImportResult>)
      requires Valid()
      modifies this`buckets, this`migrations
      ensures Valid()
      ensures (r, Snapshot()) == ImportStep(old(Snapshot()), i)
    {
      if !IsHex64(i.sourceId) || !IsHex64(i.sourceDigest) || i.buckets == map[] {
        return Raise(ValueError);
      }
      var normalized: map<string, Bucket> := map[];
      var todo := i.buckets.Keys;
      while todo != {}
        invariant todo <= i.buckets.Keys && normalized.Keys == i.buckets.Keys - todo
        invariant forall s :: s in normalized ==>
                    normalized[s] == i.buckets[s] && IsMappedScope(s) && i.buckets[s].used >= 0 &&
                      i.buckets[s].ceiling >= 0
        decreases todo
      {
        var scope :| scope in todo;
        todo := todo - {scope};
        if !IsMappedScope(scope) || i.buckets[scope].used < 0 || i.buckets[scope].ceiling < 0 {
          return Raise(ValueError);
        }
        normalized := normalized[scope := i.buckets[scope]];
      }
      assert normalized == i.buckets;
      var binding := Binding(i.sourceDigest, normalized);
      if i.sourceId in migrations {
        return if migrations[i.sourceId] != binding then Raise(ModelCallConflict) else Ok(AlreadyImported);
      }
      if !Untouched(Snapshot()) {
        return Raise(ModelCallConflict);
      }
      buckets, migrations := normalized, migrations[i.sourceId := binding];
      r := Ok(Imported);
    }

    /** The records of a logical request, ordered by attempt. */
    method ListFor(logical: string) returns (rows: seq<Record>)
      ensures IsListing(calls, logical, rows)
    {
      rows := [];
      var all := RecordsOf(calls, logical);
      var todo := all;
      while todo != {}
        invariant todo <= all && ByAttempt(rows) && multiset(rows) == multiset(all - todo)
        decreases todo
      {
        var record :| record in todo;
        assert all - (todo - {record}) == (all - todo) + {record};
        todo := todo - {record};
        InsertKeepsOrder(rows, record);
        rows := InsertByAttempt(rows, record);
      }
      assert all - todo == all;
    }

    method LoadResponse(record: Record) returns (r: Outcome<Json>)
      ensures r == Loaded(record)
    {
      if !record.state.Succeeded? || record.response.None? {
        return Raise(ModelCallConflict);
      }
      r := Ok(record.response.value);
    }
  }
}
