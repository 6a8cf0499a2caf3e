/**
 What the ledger's transactions decide and write, said of the rows of its tables: when an attempt is
 admitted and what it is charged to, and when a transition commits and what it leaves.
 */
module LedgerDecisions {
  import opened Wrappers
  import opened ModelCallLedger
  import opened LedgerRuns

  // ----- Preparing -----

  /** The request makes sense by itself: no negative numbers or nameless scopes, and a daily scope that is given. */
  predicate WellPosed(req: Request) {
    && req.estimate >= 0
    && (req.scopes.Some? ==> |req.scopes.value| > 0)
    && (req.scopes.Some? ==> forall s :: s in req.scopes.value ==> |s| > 0 && req.scopes.value[s] >= 0)
    && (req.dailyScope.Some? ==> req.scopes.Some? && req.dailyScope.value in req.scopes.value)
  }

  /** The name of the bucket a daily scope is charged to on a day. */
  function DayBucket(daily: string, today: string): string {
    daily + ":" + today
  }

  /** The bucket is one the request is charged to: a given scope, or the day's bucket of the daily one. */
  predicate ChargedTo(req: Request, today: string, bucket: string) {
    if req.dailyScope.Some? && bucket == DayBucket(req.dailyScope.value, today) then true
    else req.scopes.Some? && bucket in req.scopes.value && req.dailyScope != Some(bucket)
  }

  /** The ceiling the request asks for a bucket it is charged to. */
  function AskedFor(req: Request, today: string, bucket: string): int
    requires WellPosed(req) && ChargedTo(req, today, bucket)
  {
    if req.dailyScope.Some? && bucket == DayBucket(req.dailyScope.value, today)
    then req.scopes.value[req.dailyScope.value] else req.scopes.value[bucket]
  }

  /** The estimate fits into the bucket, under the ceiling asked for and the one it has. */
  predicate Fits(buckets: map<string, Bucket>, bucket: string, asked: int, estimate: int) {
    if bucket in buckets
    then buckets[bucket].used + estimate <= asked && buckets[bucket].used + estimate <= buckets[bucket].ceiling
    else estimate <= asked
  }

  /** The claimed operation runs under an unexpired lease of the owner who claims it. */
  predicate HeldBy(operations: map<string, Operation>, claim: Claim, now: real) {
    && claim.operation in operations
    && operations[claim.operation].running
    && operations[claim.operation].owner == claim.owner
    && now < operations[claim.operation].leaseUntil
  }

  /** The operation has an attempt left, and a repair if the purpose is one. */
  predicate HasAttemptLeft(t: Tables, operation: string, purpose: string) {
    && operation in t.limits
    && |set id | id in t.attempts && t.attempts[id].operation == operation| < t.limits[operation].modelCalls
    && (purpose == "repair" || purpose == "candidate" || purpose == "nlu_repair" ==>
          |set id | id in t.attempts && t.attempts[id].operation == operation && t.attempts[id].isRepair|
          < t.limits[operation].repairCalls)
  }

  /** The attempt was recorded under the same operation with the same contents. */
  predicate RecordedAlike(t: Tables, req: Request)
    requires req.id in t.calls
  {
    var r := t.calls[req.id];
    && r.endpoint == req.endpoint && r.model == req.model
    && r.payloadDigest == req.payloadDigest && r.session == req.session
    && (req.id in t.attempts <==> req.claim.Some?)
    && (req.claim.Some? ==> t.attempts[req.id].operation == req.claim.value.operation)
  }

  lemma ScopesCharged(req: Request, today: string)
    requires WellPosed(req)
    ensures EffectiveScopes(req, today).Ok?
    ensures var scopes := EffectiveScopes(req, today).value;
            && (forall b :: b in scopes <==> ChargedTo(req, today, b))
            && (forall b :: b in scopes ==> scopes[b] == AskedFor(req, today, b))
  {
    if req.dailyScope.Some? {
      var daily := req.dailyScope.value;
      assert |daily + ":" + today| > |daily|;
    }
  }

  lemma AdmittedIff(t: Tables, req: Request, today: string)
    requires WellPosed(req)
    ensures AllAdmit(t.buckets, EffectiveScopes(req, today).value, req.estimate) <==>
            forall b :: ChargedTo(req, today, b) ==> Fits(t.buckets, b, AskedFor(req, today, b), req.estimate)
  {
    ScopesCharged(req, today);
    var scopes := EffectiveScopes(req, today).value;
    assert forall b :: b in scopes ==>
        (Admits(t.buckets, b, scopes[b], req.estimate) <==> Fits(t.buckets, b, scopes[b], req.estimate));
  }

  lemma LeftIff(t: Tables, operation: string, purpose: string)
    ensures WithinLimits(t, operation, IsRepair(purpose)) <==> HasAttemptLeft(t, operation, purpose)
  {
    assert AttemptsOf(t.attempts, operation) == set id | id in t.attempts && t.attempts[id].operation == operation;
    assert RepairsOf(t.attempts, operation) ==
           set id | id in t.attempts && t.attempts[id].operation == operation && t.attempts[id].isRepair;
  }

  /** Whether a prepare answers, and with which error it refuses. */
  lemma PrepareDecides(t: Tables, req: Request, now: real, today: string)
    ensures var r := PrepareStep(t, req, now, today).0;
            var conflict := (req.claim.Some? && !HeldBy(t.operations, req.claim.value, now))
                            || (req.id in t.calls && !RecordedAlike(t, req));
            var left := req.claim.Some? ==> HasAttemptLeft(t, req.claim.value.operation, req.id.purpose);
            if !WellPosed(req) then r == Raise(ValueError)
            else if conflict then r == Raise(ModelCallConflict)
            else if req.id in t.calls then r == Ok(t.calls[req.id])
            else if left && forall b :: ChargedTo(req, today, b) ==>
                                        Fits(t.buckets, b, AskedFor(req, today, b), req.estimate)
            then r.Ok?
            else r == Raise(BudgetExceeded)
  {
    if WellPosed(req) {
      ScopesCharged(req, today);
      AdmittedIff(t, req, today);
      if req.claim.Some? {
        LeftIff(t, req.claim.value.operation, req.id.purpose);
      }
    }
  }

  /** The prepare adds a record. */
  predicate Adds(t: Tables, e: Event, sanitize: Json -> Json) {
    e.Prepare? && e.req.id !in t.calls && e.req.id in Step(t, e, sanitize).calls
  }

  lemma AddedIsReserved(t: Tables, req: Request, now: real, today: string, sanitize: Json -> Json)
    requires Adds(t, Prepare(req, now, today), sanitize)
    ensures WellPosed(req)
    ensures Step(t, Prepare(req, now, today), sanitize) == Reserved(t, req, EffectiveScopes(req, today).value)
  {
    PrepareCreates(t, req, now, today);
  }

  /** A new record is prepared, with the request's contents, and bound to the claimed operation. */
  lemma RecordAdded(t: Tables, req: Request, now: real, today: string, sanitize: Json -> Json)
    requires Adds(t, Prepare(req, now, today), sanitize)
    ensures req.estimate >= 0
    ensures var u := Step(t, Prepare(req, now, today), sanitize);
            var purpose := req.id.purpose;
            var repair := purpose == "repair" || purpose == "candidate" || purpose == "nlu_repair";
            && u.calls ==
               t.calls[req.id := Record(req.id, Prepared, req.endpoint, req.model, req.payloadDigest, req.estimate,
                                                   req.session, "", 0, "", None, 1)]
            && u.attempts == (if req.claim.Some? then t.attempts[req.id := Attempt(req.claim.value.operation, repair)]
                              else t.attempts)
            && u.operations == t.operations && u.limits == t.limits && u.migrations == t.migrations
  {
    AddedIsReserved(t, req, now, today, sanitize);
  }

  /**
   A new record reserves its estimate once in every bucket it is charged to and nowhere else: every given
   scope but the daily one, and the daily one's bucket of the day.
   */
  lemma ReservesTheDay(t: Tables, req: Request, now: real, today: string, sanitize: Json -> Json, k: (CallId, string))
    requires Adds(t, Prepare(req, now, today), sanitize)
    ensures var rows := Step(t, Prepare(req, now, today), sanitize).reservations;
            var own := k.0 == req.id
                       && ((req.dailyScope.Some? && k.1 == req.dailyScope.value + ":" + today)
                           || (req.scopes.Some? && k.1 in req.scopes.value && req.dailyScope != Some(k.1)));
            && (k in rows <==> own || k in t.reservations)
            && (k in rows ==> rows[k] == if own then req.estimate else t.reservations[k])
  {
    AddedIsReserved(t, req, now, today, sanitize);
    ScopesCharged(req, today);
    ReservedRow(t.reservations, req.id, EffectiveScopes(req, today).value, req.estimate, k);
  }

  /** A bucket charged gains the estimate and keeps the lower ceiling; the others stay. */
  lemma ChargesTheDay(t: Tables, req: Request, now: real, today: string, sanitize: Json -> Json, b: string)
    requires Adds(t, Prepare(req, now, today), sanitize)
    ensures WellPosed(req)
    ensures var buckets := Step(t, Prepare(req, now, today), sanitize).buckets;
            && (b in buckets <==> b in t.buckets || ChargedTo(req, today, b))
            && (ChargedTo(req, today, b) ==>
                  var asked := AskedFor(req, today, b);
                  if b in t.buckets then
                    && buckets[b].used == t.buckets[b].used + req.estimate
                    && buckets[b].ceiling <= asked && buckets[b].ceiling <= t.buckets[b].ceiling
                    && (buckets[b].ceiling == asked || buckets[b].ceiling == t.buckets[b].ceiling)
                  else buckets[b] == Bucket(req.estimate, asked))
            && (!ChargedTo(req, today, b) && b in t.buckets ==> buckets[b] == t.buckets[b])
  {
    AddedIsReserved(t, req, now, today, sanitize);
    ScopesCharged(req, today);
  }

  /** The tables differ at most in buckets the request is not charged to. */
  ghost predicate SameCharged(t: Tables, u: Tables, req: Request, today: string) {
    && u == t.(buckets := u.buckets)
    && forall b :: ChargedTo(req, today, b) ==>
         (b in t.buckets <==> b in u.buckets) && (b in t.buckets ==> t.buckets[b] == u.buckets[b])
  }

  lemma SameAnswer(t: Tables, u: Tables, req: Request, now: real, today: string)
    requires SameCharged(t, u, req, today)
    ensures PrepareStep(t, req, now, today).0 == PrepareStep(u, req, now, today).0
  {
    PrepareDecides(t, req, now, today);
    PrepareDecides(u, req, now, today);
    if req.claim.Some? {
      LeftIff(t, req.claim.value.operation, req.id.purpose);
      LeftIff(u, req.claim.value.operation, req.id.purpose);
    }
  }

  /** What a request is answered on one day does not depend on what its daily scope was charged on another. */
  lemma DaysApart(t: Tables, req: Request, now: real, today: string, other: string, full: Bucket)
    requires req.dailyScope.Some? && other != today
    requires req.scopes.Some? ==> req.dailyScope.value + ":" + other !in req.scopes.value
    ensures var u := t.(buckets := t.buckets[req.dailyScope.value + ":" + other := full]);
            PrepareStep(u, req, now, today).0 == PrepareStep(t, req, now, today).0
  {
    var daily := req.dailyScope.value;
    assert other == (daily + ":" + other)[|daily| + 1..] && today == (daily + ":" + today)[|daily| + 1..];
    SameAnswer(t, t.(buckets := t.buckets[daily + ":" + other := full]), req, now, today);
  }

  // ----- Transitions -----

  /** The states a call may be moved between. */
  predicate Legal(from: CallState, to: CallState) {
    || (from.Prepared? && (to.DispatchIntent? || to.FailedRetryableNotSent? || to.FailedFinal?))
    || (from.DispatchIntent? && !to.Prepared? && !to.DispatchIntent?)
  }

  /** The caller may make this change: a dispatch under the bound operation and its lease, a recovery of an orphan. */
  predicate May(t: Tables, c: Change, now: real) {
    && (c.target.DispatchIntent? ==>
          && (c.id in t.attempts <==> c.claim.Some?)
          && (c.claim.Some? ==> t.attempts[c.id].operation == c.claim.value.operation
                                && HeldBy(t.operations, c.claim.value, now)))
    && (c.recoveryOnly ==>
          && c.expected.DispatchIntent? && c.target.OutcomeUnknown?
          && (c.id in t.attempts ==> NobodyHolds(t.operations, t.attempts[c.id].operation, now)))
  }

  predicate NobodyHolds(operations: map<string, Operation>, operation: string, now: real) {
    operation in operations ==> !operations[operation].running || operations[operation].leaseUntil <= now
  }

  /** Whether a transition commits, and with which error it refuses. */
  lemma TransitionDecides(t: Tables, c: Change, now: real, sanitize: Json -> Json)
    ensures var r := TransitionStep(t, c, now, sanitize).0;
            if Legal(c.expected, c.target) && May(t, c, now) && c.id in t.calls &&
              t.calls[c.id].state == c.expected then
              if c.report.actualTokens >= 0 then r.Ok? else r == Raise(ValueError)
            else r == Raise(ModelCallConflict)
  {
  }

  /** What a committed transition leaves of its record: the new state, the report, and the next revision. */
  lemma RecordMoved(t: Tables, c: Change, now: real, sanitize: Json -> Json)
    requires TransitionStep(t, c, now, sanitize).0.Ok?
    ensures c.id in t.calls && c.report.actualTokens >= 0
    ensures var u, before := Step(t, Transition(c, now), sanitize), t.calls[c.id];
            && u.calls == t.calls[c.id := Record(
                 before.id, c.target, before.endpoint, before.model, before.payloadDigest, before.estimate,
                 before.session, c.report.responseDigest, c.report.actualTokens, c.report.errorClass,
                 match c.report.response { case Some(payload) => Some(sanitize(payload)) case None => before.response },
                 before.revision + 1)]
            && u.attempts == t.attempts && u.operations == t.operations && u.limits == t.limits
            && u.migrations == t.migrations
  {
  }

  /** A committed transition raises each reservation of its call to the usage reported, and its bucket as much. */
  lemma UsageCharged(t: Tables, c: Change, now: real, sanitize: Json -> Json, k: (CallId, string), b: string)
    requires TransitionStep(t, c, now, sanitize).0.Ok?
    ensures var u, n := Step(t, Transition(c, now), sanitize), c.report.actualTokens;
            && (k in u.reservations <==> k in t.reservations)
            && (k in t.reservations ==>
                  u.reservations[k] == if k.0 == c.id && t.reservations[k] < n then n else t.reservations[k])
            && (b in u.buckets <==> b in t.buckets)
            && (b in t.buckets ==>
                  && u.buckets[b].ceiling == t.buckets[b].ceiling
                  && u.buckets[b].used - t.buckets[b].used ==
                     if (c.id, b) in t.reservations then u.reservations[(c.id, b)] - t.reservations[(c.id, b)] else 0)
  {
  }

  /** Recovering a call moves it, if at all, to an unknown outcome and says so; no budget changes. */
  lemma RecoveredRecord(t: Tables, id: CallId, now: real, sanitize: Json -> Json)
    requires WellFormed(t) && id in t.calls
    ensures var u := Step(t, Transition(RecoveryOf(id), now), sanitize);
            var orphan := id in t.attempts ==> NobodyHolds(t.operations, t.attempts[id].operation, now);
            if t.calls[id].state.DispatchIntent? && orphan then
              u == t.(calls := t.calls[id := t.calls[id].(
                                        state := OutcomeUnknown, responseDigest := "", actualTokens := 0,
                                        errorClass := "recovered_dispatch_intent",
                                        revision := t.calls[id].revision + 1)])
            else u == t
  {
    if t.calls[id].state.DispatchIntent? {
      RecoveryEffect(t, id, now, sanitize);
    }
  }

  /** The orphans a sweep closes are the dispatch intents that no live operation holds. */
  lemma OrphansAre(t: Tables, now: real, id: CallId)
    ensures id in Orphans(t, now) <==>
            && id in t.calls && t.calls[id].state.DispatchIntent?
            && (id in t.attempts ==> NobodyHolds(t.operations, t.attempts[id].operation, now))
  {
  }

  // ----- Listing and the runtime's own writes -----

  /** The rows are the records of the logical request and no others, each once, and attempts never go down. */
  predicate Lists(calls: map<CallId, Record>, logical: string, rows: seq<Record>) {
    && (forall id :: id in calls && id.logical == logical ==> calls[id] in rows)
    && (forall r :: r in rows ==> r.id.logical == logical && r.id in calls && calls[r.id] == r)
    && (forall i, j :: 0 <= i < j < |rows| ==> rows[i] != rows[j] && rows[i].id.attempt <= rows[j].id.attempt)
  }

  lemma ListingIs(calls: map<CallId, Record>, logical: string, rows: seq<Record>)
    requires forall id :: id in calls ==> calls[id].id == id
    ensures IsListing(calls, logical, rows) <==> Lists(calls, logical, rows)
  {
    if IsListing(calls, logical, rows) {
      ListingLists(calls, logical, rows);
    } else if Lists(calls, logical, rows) {
      assert forall r :: r in rows <==> r in RecordsOf(calls, logical);
      DistinctAreSet(rows, RecordsOf(calls, logical));
      assert false;
    }
  }

  lemma ListingLists(calls: map<CallId, Record>, logical: string, rows: seq<Record>)
    requires forall id :: id in calls ==> calls[id].id == id
    requires IsListing(calls, logical, rows)
    ensures Lists(calls, logical, rows)
  {
    var records := RecordsOf(calls, logical);
    assert forall r :: r in rows <==> r in multiset(rows);
    forall i, j | 0 <= i < j < |rows|
      ensures rows[i] != rows[j]
    {
      OnceEach(rows, records, i, j);
    }
  }

  lemma OnceEach(rows: seq<Record>, records: set<Record>, i: nat, j: nat)
    requires multiset(rows) == multiset(records) && i < j < |rows|
    ensures rows[i] != rows[j]
  {
    assert rows == rows[..j] + rows[j..];
    assert rows[i] in rows[..j] && rows[j] in rows[j..];
    assert multiset(rows)[rows[i]] == multiset(rows[..j])[rows[i]] + multiset(rows[j..])[rows[i]];
  }

  lemma {:induction false} DistinctAreSet(rows: seq<Record>, records: set<Record>)
    requires forall r :: r in rows <==> r in records
    requires forall i, j :: 0 <= i < j < |rows| ==> rows[i] != rows[j]
    ensures multiset(rows) == multiset(records)
    decreases |rows|
  {
    if rows != [] {
      var row, rest := rows[|rows| - 1], rows[..|rows| - 1];
      assert rows == rest + [row];
      DistinctAreSet(rest, records - {row});
      assert multiset(records) == multiset(records - {row}) + multiset{row};
    }
  }

  /** The runtime replaces its operations, and an operation keeps the limits it was first given. */
  lemma LimitsOnce(t: Tables, operations: map<string, Operation>, newLimits: map<string, Limit>, sanitize: Json -> Json)
    ensures var u := Step(t, Runtime(operations, newLimits), sanitize);
            && u.operations == operations && u.limits.Keys == t.limits.Keys + newLimits.Keys
            && (forall o :: o in u.limits ==> u.limits[o] == if o in t.limits then t.limits[o] else newLimits[o])
            && u == t.(operations := u.operations, limits := u.limits)
  {
  }

  // ----- Importing a baseline -----

  predicate Digits(s: string, n: nat) {
    |s| == n && forall i :: 0 <= i < n ==> '0' <= s[i] <= '9'
  }

  predicate Digest(s: string) {
    |s| == 64 && forall i :: 0 <= i < 64 ==> '0' <= s[i] <= '9' || s[i] in "abcdef"
  }

  /** The scope is a digest, a colon and a date. */
  predicate Dated(s: string, digest: string, year: string, month: string, day: string) {
    && Digest(digest) && Digits(year, 4) && Digits(month, 2) && Digits(day, 2)
    && s == digest + ":" + year + "-" + month + "-" + day
  }

  /** A mapped scope is a digest, alone or followed by a colon and a date. */
  lemma ScopeShape(s: string)
    ensures IsMappedScope(s) <==> Digest(s) || exists digest, year, month, day :: Dated(s, digest, year, month, day)
  {
    if |s| == 75 && IsMappedScope(s) {
      HasDate(s);
    }
    if digest, year, month, day :| Dated(s, digest, year, month, day) {
      DateMapped(s, digest, year, month, day);
    }
  }

  lemma HasDate(s: string)
    requires |s| == 75 && IsMappedScope(s)
    ensures Dated(s, s[..64], s[65..69], s[70..72], s[73..])
  {
    assert s == s[..64] + ":" + s[65..69] + "-" + s[70..72] + "-" + s[73..];
  }

  lemma DateMapped(s: string, digest: string, year: string, month: string, day: string)
    requires Dated(s, digest, year, month, day)
    ensures IsMappedScope(s)
  {
    DateAt(digest, year, month, day);
    assert s[..64] == digest;
  }

  lemma DateAt(digest: string, year: string, month: string, day: string)
    requires |digest| == 64 && Digits(year, 4) && Digits(month, 2) && Digits(day, 2)
    ensures var s := digest + ":" + year + "-" + month + "-" + day;
            && |s| == 75 && s[64] == ':' && s[69] == '-' && s[72] == '-'
            && forall i :: 65 <= i < 75 && i != 69 && i != 72 ==> '0' <= s[i] <= '9'
  {
    var s := digest + ":" + year + "-" + month + "-" + day;
    forall i | 65 <= i < 75 && i != 69 && i != 72
      ensures '0' <= s[i] <= '9'
    {
      assert s[i] == if i < 69 then year[i - 65] else if i < 72 then month[i - 70] else day[i - 73];
    }
  }

  /** Whether an import takes effect, is a repetition or is refused, and what it writes. */
  lemma ImportDecides(t: Tables, i: Import)
    ensures var (r, u) := ImportStep(t, i);
            var valid := Digest(i.sourceId) && Digest(i.sourceDigest) && |i.buckets| > 0
                         && forall s :: s in i.buckets ==>
                              IsMappedScope(s) && i.buckets[s].used >= 0 && i.buckets[s].ceiling >= 0;
            var empty := |t.calls| == 0 && |t.buckets| == 0 && |t.reservations| == 0 && |t.migrations| == 0;
            var alike := i.sourceId in t.migrations && t.migrations[i.sourceId].sourceDigest == i.sourceDigest
                         && t.migrations[i.sourceId].buckets == i.buckets;
            if !valid then r == Raise(ValueError) && u == t
            else if alike then r == Ok(AlreadyImported) && u == t
            else if !empty then r == Raise(ModelCallConflict) && u == t
            else && r == Ok(Imported) && u.buckets == i.buckets
                 && u == t.(buckets := u.buckets, migrations := map[i.sourceId := Binding(i.sourceDigest, i.buckets)])
  {
    assert Digest(i.sourceId) <==> IsHex64(i.sourceId);
    assert Digest(i.sourceDigest) <==> IsHex64(i.sourceDigest);
  }
}
