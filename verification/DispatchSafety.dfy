/** Safety of the dispatch protocol in every reachable state of every run. */
module DispatchSafety {
  import opened Wrappers
  import opened ModelCallLedger
  import opened LedgerRuns
  import opened DispatchProtocol
  import opened TableSums

  // ----- What one step may do to the records -----

  /** A call in one of these states may have been sent, or may be about to be. */
  predicate Dispatched(state: CallState) {
    !state.Prepared? && !state.FailedRetryableNotSent?
  }

  predicate Grows(r: Record, q: Record) {
    || q == r
    || (q.id == r.id && r.state.Prepared? && !q.state.Prepared?)
    || (q.id == r.id && r.state.DispatchIntent? && Dispatched(q.state) && q.state.Terminal())
  }

  /** Records are never removed, and dispatched ones stay so; finished ones never change. */
  ghost predicate CallsGrow(before: map<CallId, Record>, after: map<CallId, Record>) {
    forall id :: id in before ==> id in after && Grows(before[id], after[id])
  }

  ghost predicate Answered(calls: map<CallId, Record>) {
    forall id :: id in calls && calls[id].state.Succeeded? ==> calls[id].response.Some?
  }

  predicate Known(calls: map<CallId, Record>, id: CallId) {
    id in calls && Dispatched(calls[id].state)
  }

  /** What a worker's program counter says about the records. */
  predicate PcOk(calls: map<CallId, Record>, c: Caller, pc: Pc, codec: Codec) {
    match pc
    case Preparing(attempt) =>
      && attempt >= 1
      && (attempt > 1 ==> CallOf(c, attempt - 1) in calls)
      && (attempt > 1 && !c.forced && CallOf(c, attempt) !in calls ==>
            calls[CallOf(c, attempt - 1)].state.FailedRetryableNotSent?)
    case Polling(id, stage) => id == CallOf(c, id.attempt) && (stage.AfterListing? ==> Known(calls, id))
    case Claiming(id) => id == CallOf(c, id.attempt)
    case Sending(id) => id == CallOf(c, id.attempt) && Known(calls, id)
    case Settling(id, _) => id == CallOf(c, id.attempt) && Known(calls, id)
    case Returned(value, id, payload) =>
      && id == CallOf(c, id.attempt)
      && id in calls && calls[id].state.Succeeded? && calls[id].response.Some?
      && (payload.None? ==> codec.message(c.client, calls[id].response.value) == Some(value))
      && (payload.Some? ==> codec.message(c.client, payload.value) == Some(value)
                            && calls[id].response.value == codec.sanitize(payload.value))
    case _ => true
  }

  /** A worker that has not yet made its one prepare. */
  predicate Unprepared(pc: Pc) {
    pc.Starting? || pc.Preparing? || (pc.Polling? && pc.stage.AfterListing?)
  }

  /** The worker that won the claim of `id`: about to send it, waiting for its answer, or returning its payload. */
  predicate Holds(pc: Pc, id: CallId) {
    (pc.Sending? || pc.Settling? || (pc.Returned? && pc.payload.Some?)) && pc.id == id
  }

  /**
   Every record has its creator, attempts are contiguous, and only a forced caller or a
   failed attempt opens a new one.
   */
  ghost predicate Chained(calls: map<CallId, Record>, creators: map<CallId, nat>, workers: map<nat, Worker>) {
    && creators.Keys == calls.Keys
    && (forall id :: id in calls ==>
          && calls[id].id == id
          && creators[id] in workers
          && id == CallOf(workers[creators[id]].caller, id.attempt)
          && !Unprepared(workers[creators[id]].pc))
    && (forall x, y :: x in creators && y in creators && creators[x] == creators[y] ==> x == y)
    && (forall id {:trigger Follows(calls, creators, workers, id)} ::
          id in calls ==> Follows(calls, creators, workers, id))
  }

  ghost predicate Follows(calls: map<CallId, Record>, creators: map<CallId, nat>, workers: map<nat, Worker>, id: CallId)
    requires id in creators && creators[id] in workers
  {
    var previous := id.(attempt := id.attempt - 1);
    && id.attempt >= 1
    && (id.attempt > 1 ==>
          && previous in calls
          && (workers[creators[id]].caller.forced || calls[previous].state.FailedRetryableNotSent?))
  }

  /** No call is posted twice, none posted is still to be sent, and no two workers hold the same one. */
  ghost predicate PostedOnce(calls: map<CallId, Record>, posts: seq<CallId>, workers: map<nat, Worker>) {
    && (forall i :: 0 <= i < |posts| ==> Known(calls, posts[i]))
    && (forall i, j :: 0 <= i < j < |posts| ==> posts[i] != posts[j])
    && (forall w :: w in workers && workers[w].pc.Sending? ==> workers[w].pc.id !in posts)
    && (forall v, w, id ::
          v in workers && w in workers && Holds(workers[v].pc, id) && Holds(workers[w].pc, id) ==> v == w)
  }

  ghost predicate PcsOk(calls: map<CallId, Record>, workers: map<nat, Worker>, codec: Codec) {
    forall w :: w in workers ==> PcOk(calls, workers[w].caller, workers[w].pc, codec)
  }

  ghost predicate Inv(s: System, codec: Codec) {
    && WellFormed(s.tables)
    && CallersAgree(s.workers)
    && Answered(s.tables.calls)
    && PcsOk(s.tables.calls, s.workers, codec)
    && Chained(s.tables.calls, s.creators, s.workers)
    && PostedOnce(s.tables.calls, s.posts, s.workers)
  }

  // ----- Stability -----

  lemma PcOkStable(before: map<CallId, Record>, after: map<CallId, Record>, c: Caller, pc: Pc, codec: Codec)
    requires CallsGrow(before, after) && PcOk(before, c, pc, codec)
    ensures PcOk(after, c, pc, codec)
  {
    if pc.Preparing? && pc.attempt > 1 {
      assert Grows(before[CallOf(c, pc.attempt - 1)], after[CallOf(c, pc.attempt - 1)]);
    }
  }

  /** A ledger transaction that never retries a dispatched call and never succeeds without a response. */
  predicate SafeEvent(e: Event) {
    e.Transition? ==>
      && (e.change.target.FailedRetryableNotSent? ==> e.change.expected.Prepared?)
      && (e.change.target.Succeeded? ==> e.change.report.response.Some?)
  }

  lemma TransactionsAreSafe(s: System, m: Move)
    requires Enabled(s, m) && TransactionOf(s, m).Some?
    ensures SafeEvent(TransactionOf(s, m).value)
    ensures var e := TransactionOf(s, m).value;
            e.Prepare? ==> m.Reserve? && e.req.id == CallOf(s.workers[m.worker].caller, s.workers[m.worker].pc.attempt)
  {
  }

  lemma EventOnCall(t: Tables, e: Event, sanitize: Json -> Json, id: CallId)
    requires Answered(t.calls) && SafeEvent(e)
    ensures var before, after := t.calls, Step(t, e, sanitize).calls;
            && (id in before ==> id in after && Grows(before[id], after[id]))
            && (id in after && after[id].state.Succeeded? ==> after[id].response.Some?)
            && (id in after && id !in before ==>
                  e.Prepare? && id == e.req.id && after[id].state.Prepared? && after[id].id == id)
  {
    EffectOnCall(t, e, sanitize, id);
  }

  /** What an enabled step does to one record. */
  lemma StepOnCall(s: System, m: Move, codec: Codec, id: CallId)
    requires Answered(s.tables.calls) && Enabled(s, m)
    ensures var before, after := s.tables.calls, TablesAfter(s, m, codec).calls;
            && (id in before ==> id in after && Grows(before[id], after[id]))
            && (id in after && after[id].state.Succeeded? ==> after[id].response.Some?)
            && (id in after && id !in before ==>
                  && m.Reserve? && id == CallOf(s.workers[m.worker].caller, s.workers[m.worker].pc.attempt)
                  && after[id].state.Prepared? && after[id].id == id)
  {
    var e := TransactionOf(s, m);
    if e.Some? {
      TransactionsAreSafe(s, m);
      EventOnCall(s.tables, e.value, codec.sanitize, id);
    }
  }

  /** Every step lets the records grow and adds at most the attempt a worker is preparing. */
  lemma StepGrows(s: System, m: Move, codec: Codec)
    requires Inv(s, codec) && Enabled(s, m)
    ensures var after := TablesAfter(s, m, codec);
            WellFormed(after) && CallsGrow(s.tables.calls, after.calls) && Answered(after.calls)
  {
    var e := TransactionOf(s, m);
    var before, after := s.tables.calls, TablesAfter(s, m, codec).calls;
    forall id
      ensures id in before ==> id in after && Grows(before[id], after[id])
      ensures id in after && after[id].state.Succeeded? ==> after[id].response.Some?
    {
      StepOnCall(s, m, codec, id);
    }
    if e.Some? {
      StepKeepsForm(s.tables, e.value, codec.sanitize);
    }
  }

  // ----- Listings -----

  function AttemptsUpTo(n: nat): (r: set<int>)
    ensures |r| == n && forall i :: i in r <==> 1 <= i <= n
  {
    if n == 0 then {} else AttemptsUpTo(n - 1) + {n}
  }

  /** Contiguity: below a recorded attempt every attempt from 1 on is recorded. */
  lemma {:induction false} AllBelow(calls: map<CallId, Record>, creators: map<CallId, nat>, workers: map<nat, Worker>,
                                    id: CallId, attempt: int)
    requires Chained(calls, creators, workers) && id in calls && 1 <= attempt <= id.attempt
    ensures id.(attempt := attempt) in calls
    decreases id.attempt - attempt
  {
    assert Follows(calls, creators, workers, id);
    if attempt >= id.attempt {
    } else {
      AllBelow(calls, creators, workers, id, attempt + 1);
      assert Follows(calls, creators, workers, id.(attempt := attempt + 1));
    }
  }

  /** The records of a worker's logical request are exactly the attempts 1 to n of that request. */
  lemma RecordsAreAttempts(s: System, w: nat, id: CallId)
    requires CallersAgree(s.workers) && Chained(s.tables.calls, s.creators, s.workers)
    requires w in s.workers && id in s.tables.calls && id.logical == Logical(s.workers[w].caller)
    ensures id == CallOf(s.workers[w].caller, id.attempt) && id.attempt >= 1
  {
    assert Follows(s.tables.calls, s.creators, s.workers, id);
    var creator := s.workers[s.creators[id]].caller;
    assert Logical(creator) == Logical(s.workers[w].caller);
  }

  lemma ListedRows(calls: map<CallId, Record>, logical: string, rows: seq<Record>)
    requires IsListing(calls, logical, rows)
    ensures |rows| == |RecordsOf(calls, logical)|
    ensures forall r :: r in RecordsOf(calls, logical) ==> r in rows
    ensures forall i :: 0 <= i < |rows| ==> rows[i] in RecordsOf(calls, logical)
  {
    assert |rows| == |multiset(rows)|;
    forall r | r in RecordsOf(calls, logical)
      ensures r in rows
    {
      assert r in multiset(rows);
    }
    forall i | 0 <= i < |rows|
      ensures rows[i] in RecordsOf(calls, logical)
    {
      assert rows[i] in multiset(rows);
    }
  }

  lemma AtMostAttempts(s: System, w: nat, n: nat)
    requires CallersAgree(s.workers) && Chained(s.tables.calls, s.creators, s.workers) && w in s.workers
    requires forall r :: r in RecordsOf(s.tables.calls, Logical(s.workers[w].caller)) ==> r.id.attempt <= n
    ensures |RecordsOf(s.tables.calls, Logical(s.workers[w].caller))| <= n
  {
    var calls, c := s.tables.calls, s.workers[w].caller;
    var records := RecordsOf(calls, Logical(c));
    forall r | r in records
      ensures r.id in calls && r == calls[CallOf(c, r.id.attempt)] && r.id.attempt in AttemptsUpTo(n)
    {
      RecordsAreAttempts(s, w, r.id);
    }
    var numbers := map r | r in records :: r.id.attempt;
    assert numbers.Keys == records;
    InjectionBound(numbers, AttemptsUpTo(n));
  }

  lemma AtLeastAttempts(s: System, w: nat, n: nat)
    requires Chained(s.tables.calls, s.creators, s.workers) && w in s.workers
    requires n >= 1 && CallOf(s.workers[w].caller, n) in s.tables.calls
    ensures n <= |RecordsOf(s.tables.calls, Logical(s.workers[w].caller))|
  {
    var calls, c := s.tables.calls, s.workers[w].caller;
    forall i | i in AttemptsUpTo(n)
      ensures CallOf(c, i) in calls && calls[CallOf(c, i)].id.attempt == i
    {
      AllBelow(calls, s.creators, s.workers, CallOf(c, n), i);
    }
    var attempts := map i | i in AttemptsUpTo(n) :: calls[CallOf(c, i)];
    assert attempts.Keys == AttemptsUpTo(n);
    InjectionBound(attempts, RecordsOf(calls, Logical(c)));
  }

  lemma LastIsGreatest(records: set<Record>, rows: seq<Record>)
    requires rows != [] && ByAttempt(rows) && forall r :: r in records ==> r in rows
    ensures forall r :: r in records ==> r.id.attempt <= rows[|rows| - 1].id.attempt
  {
    forall r | r in records
      ensures r.id.attempt <= rows[|rows| - 1].id.attempt
    {
      var i :| 0 <= i < |rows| && rows[i] == r;
    }
  }

  /** The last row of a listing is the attempt numbered by the listing's length. */
  lemma ListingEndsAtLength(s: System, w: nat, rows: seq<Record>)
    requires CallersAgree(s.workers) && Chained(s.tables.calls, s.creators, s.workers)
    requires w in s.workers && rows != [] && IsListing(s.tables.calls, Logical(s.workers[w].caller), rows)
    ensures var last := rows[|rows| - 1];
            last.id == CallOf(s.workers[w].caller, |rows|) && last.id in s.tables.calls &&
              s.tables.calls[last.id] == last
  {
    var calls, c, last := s.tables.calls, s.workers[w].caller, rows[|rows| - 1];
    ListedRows(calls, Logical(c), rows);
    assert last in RecordsOf(calls, Logical(c));
    RecordsAreAttempts(s, w, last.id);
    LastIsGreatest(RecordsOf(calls, Logical(c)), rows);
    AtMostAttempts(s, w, last.id.attempt);
    AtLeastAttempts(s, w, last.id.attempt);
  }

  // ----- The moving worker -----

  lemma LoadOk(calls: map<CallId, Record>, c: Caller, record: Record, codec: Codec)
    requires record.id in calls && calls[record.id] == record && record.id == CallOf(c, record.id.attempt)
    ensures PcOk(calls, c, Load(c, record, codec), codec)
  {
  }

  /** A caller that is not bound to the last listed attempt. */
  predicate TriesAgain(c: Caller, rows: seq<Record>) {
    rows == [] || c.forced || !Dispatched(rows[|rows| - 1].state)
  }

  /** The attempt chosen after a listing, whatever the last record's state, when none is running or final. */
  lemma NextAttemptOk(s: System, w: nat, rows: seq<Record>, codec: Codec)
    requires CallersAgree(s.workers) && Chained(s.tables.calls, s.creators, s.workers)
    requires w in s.workers && IsListing(s.tables.calls, Logical(s.workers[w].caller), rows)
    requires TriesAgain(s.workers[w].caller, rows)
    ensures PcOk(s.tables.calls, s.workers[w].caller, Preparing(NextAttempt(rows)), codec)
  {
    if rows != [] {
      ListingEndsAtLength(s, w, rows);
      assert Follows(s.tables.calls, s.creators, s.workers, rows[|rows| - 1].id);
      NextAfterLast(s.tables.calls, s.workers[w].caller, rows, codec);
    }
  }

  lemma NextAfterLast(calls: map<CallId, Record>, c: Caller, rows: seq<Record>, codec: Codec)
    requires rows != [] && TriesAgain(c, rows)
    requires CallOf(c, |rows|) in calls && calls[CallOf(c, |rows|)] == rows[|rows| - 1]
    requires rows[|rows| - 1].id == CallOf(c, |rows|) && (|rows| > 1 ==> CallOf(c, |rows| - 1) in calls)
    ensures PcOk(calls, c, Preparing(NextAttempt(rows)), codec)
  {
  }

  /** Where a listing leads: to failure, to the next attempt, or to the last one, to be loaded or waited for. */
  lemma AfterListCases(c: Caller, rows: seq<Record>, codec: Codec)
    ensures var pc := AfterList(c, rows, codec);
            || pc.Failed?
            || (TriesAgain(c, rows) && pc == Preparing(NextAttempt(rows)))
            || (rows != [] &&
                var last := rows[|rows| - 1];
                || pc == Load(c, last, codec)
                || (last.state.DispatchIntent? && pc == Polling(last.id, AfterListing(NextAttempt(rows)))))
  {
  }

  lemma ListedOk(s: System, w: nat, rows: seq<Record>, codec: Codec)
    requires CallersAgree(s.workers) && Chained(s.tables.calls, s.creators, s.workers)
    requires w in s.workers && IsListing(s.tables.calls, Logical(s.workers[w].caller), rows)
    ensures PcOk(s.tables.calls, s.workers[w].caller, AfterList(s.workers[w].caller, rows, codec), codec)
  {
    var c := s.workers[w].caller;
    AfterListCases(c, rows, codec);
    if TriesAgain(c, rows) {
      NextAttemptOk(s, w, rows, codec);
    }
    if rows != [] {
      ListedLastOk(s, w, rows, codec);
    }
  }

  lemma ListedLastOk(s: System, w: nat, rows: seq<Record>, codec: Codec)
    requires CallersAgree(s.workers) && Chained(s.tables.calls, s.creators, s.workers)
    requires w in s.workers && rows != [] && IsListing(s.tables.calls, Logical(s.workers[w].caller), rows)
    ensures var calls, c, last := s.tables.calls, s.workers[w].caller, rows[|rows| - 1];
            && PcOk(calls, c, Load(c, last, codec), codec)
            && (last.state.DispatchIntent? ==> PcOk(calls, c, Polling(last.id, AfterListing(NextAttempt(rows))), codec))
  {
    ListingEndsAtLength(s, w, rows);
    LoadOk(s.tables.calls, s.workers[w].caller, rows[|rows| - 1], codec);
  }

  lemma PolledOk(calls: map<CallId, Record>, c: Caller, pc: Pc, codec: Codec)
    requires pc.Polling? && PcOk(calls, c, pc, codec)
    requires pc.id in calls && calls[pc.id].id == pc.id && !calls[pc.id].state.DispatchIntent?
    ensures PcOk(calls, c, Resume(c, pc.stage, Some(calls[pc.id]), codec), codec)
  {
    LoadOk(calls, c, calls[pc.id], codec);
  }

  lemma ReservedOk(t: Tables, c: Caller, attempt: int, now: real, today: string, codec: Codec)
    requires WellFormed(t)
    ensures var r := PrepareStep(t, c.template.(id := CallOf(c, attempt)), now, today);
            PcOk(r.1.calls, c, AfterReserve(c, r.0, codec), codec)
  {
    var req := c.template.(id := CallOf(c, attempt));
    var r := PrepareStep(t, req, now, today);
    if r.1 != t {
      PrepareCreates(t, req, now, today);
    }
    if r.0.Ok? {
      LoadOk(r.1.calls, c, r.0.value, codec);
    }
  }

  lemma SettledOk(t: Tables, c: Caller, id: CallId, answer: Answer, now: real, codec: Codec)
    requires WellFormed(t) && id == CallOf(c, id.attempt) && SettleChange(c, id, answer).Some?
    ensures var r := TransitionStep(t, SettleChange(c, id, answer).value, now, codec.sanitize);
            PcOk(r.1.calls, c, AfterSettle(c, id, answer, Some(r.0), codec), codec)
  {
  }

  lemma ClaimedOk(t: Tables, c: Caller, id: CallId, now: real, codec: Codec)
    requires WellFormed(t) && id == CallOf(c, id.attempt)
    ensures var r := TransitionStep(t, ClaimChange(c, id), now, codec.sanitize);
            PcOk(r.1.calls, c, AfterClaim(c, id, r.0.Ok?), codec)
  {
  }

  lemma ReaderOk(s: System, m: Move, codec: Codec)
    requires Inv(s, codec) && Enabled(s, m) && ByWorker(m) && !m.Reserve? && !m.Claim? && !m.Settle?
    ensures var worker := s.workers[m.worker];
            PcOk(s.tables.calls, worker.caller, NextPc(s.tables, worker.caller, worker.pc, m, codec), codec)
  {
    var worker := s.workers[m.worker];
    if m.List? {
      ListedOk(s, m.worker, m.rows, codec);
    } else {
      PollerOk(s.tables, worker.caller, worker.pc, m, codec);
    }
  }

  lemma PollerOk(t: Tables, c: Caller, pc: Pc, m: Move, codec: Codec)
    requires WellFormed(t) && PcOk(t.calls, c, pc, codec) && CanTake(t, c, pc, m)
    requires m.Poll? || m.GiveUp? || m.Post? || m.Crash?
    ensures PcOk(t.calls, c, NextPc(t, c, pc, m, codec), codec)
  {
    if m.Poll? && pc.id in t.calls && !t.calls[pc.id].state.DispatchIntent? {
      PolledOk(t.calls, c, pc, codec);
    }
  }

  lemma ReserverOk(s: System, m: Move, codec: Codec)
    requires WellFormed(s.tables) && PcsOk(s.tables.calls, s.workers, codec) && Enabled(s, m) && m.Reserve?
    ensures var worker := s.workers[m.worker];
            PcOk(TablesAfter(s, m, codec).calls, worker.caller,
                 NextPc(s.tables, worker.caller, worker.pc, m, codec), codec)
  {
    var t, c, pc := s.tables, s.workers[m.worker].caller, s.workers[m.worker].pc;
    assert PcOk(t.calls, c, pc, codec);
    ReservedOk(t, c, pc.attempt, m.now, m.today, codec);
  }

  lemma ClaimerOk(s: System, m: Move, codec: Codec)
    requires WellFormed(s.tables) && PcsOk(s.tables.calls, s.workers, codec) && Enabled(s, m) && m.Claim?
    ensures var worker := s.workers[m.worker];
            PcOk(TablesAfter(s, m, codec).calls, worker.caller,
                 NextPc(s.tables, worker.caller, worker.pc, m, codec), codec)
  {
    var t, c, pc := s.tables, s.workers[m.worker].caller, s.workers[m.worker].pc;
    assert PcOk(t.calls, c, pc, codec);
    ClaimedOk(t, c, pc.id, m.now, codec);
  }

  lemma SettlerOk(s: System, m: Move, codec: Codec)
    requires WellFormed(s.tables) && PcsOk(s.tables.calls, s.workers, codec) && Enabled(s, m) && m.Settle?
    ensures var worker := s.workers[m.worker];
            PcOk(TablesAfter(s, m, codec).calls, worker.caller,
                 NextPc(s.tables, worker.caller, worker.pc, m, codec), codec)
  {
    var t, c, pc := s.tables, s.workers[m.worker].caller, s.workers[m.worker].pc;
    assert PcOk(t.calls, c, pc, codec);
    if SettleChange(c, pc.id, pc.answer).Some? {
      SettledOk(t, c, pc.id, pc.answer, m.now, codec);
    }
  }

  lemma WriterOk(s: System, m: Move, codec: Codec)
    requires WellFormed(s.tables) && PcsOk(s.tables.calls, s.workers, codec) && Enabled(s, m)
    requires m.Reserve? || m.Claim? || m.Settle?
    ensures var worker := s.workers[m.worker];
            PcOk(TablesAfter(s, m, codec).calls, worker.caller,
                 NextPc(s.tables, worker.caller, worker.pc, m, codec), codec)
  {
    if m.Reserve? {
      ReserverOk(s, m, codec);
    } else if m.Claim? {
      ClaimerOk(s, m, codec);
    } else {
      SettlerOk(s, m, codec);
    }
  }

  lemma MoverOk(s: System, m: Move, codec: Codec)
    requires Inv(s, codec) && Enabled(s, m) && ByWorker(m)
    ensures var worker := s.workers[m.worker];
            PcOk(TablesAfter(s, m, codec).calls, worker.caller,
                 NextPc(s.tables, worker.caller, worker.pc, m, codec), codec)
  {
    if m.Reserve? || m.Claim? || m.Settle? {
      WriterOk(s, m, codec);
    } else {
      ReaderOk(s, m, codec);
    }
  }

  lemma WorkerOk(s: System, m: Move, codec: Codec)
    requires Enabled(s, m) && ByWorker(m)
    requires var worker := s.workers[m.worker];
             PcOk(TablesAfter(s, m, codec).calls, worker.caller,
                  NextPc(s.tables, worker.caller, worker.pc, m, codec), codec)
    ensures var after := WorkersAfter(s, m, codec)[m.worker];
            PcOk(TablesAfter(s, m, codec).calls, after.caller, after.pc, codec)
  {
  }

  // ----- Preservation -----

  /**
   The workers after a step: only the mover's program counter changes, and a preparer that
   moves on is done preparing.
   */
  ghost predicate OneMoves(workers: map<nat, Worker>, after: map<nat, Worker>, mover: Option<nat>) {
    && after.Keys == workers.Keys
    && (forall w :: w in workers ==> after[w].caller == workers[w].caller)
    && (forall w :: w in workers && mover != Some(w) ==> after[w] == workers[w])
    && (forall w :: w in workers && mover == Some(w) && !Unprepared(workers[w].pc) ==> !Unprepared(after[w].pc))
  }

  function MoverOf(m: Move): Option<nat> {
    if ByWorker(m) then Some(m.worker) else None
  }

  lemma StaysPrepared(t: Tables, c: Caller, pc: Pc, m: Move, codec: Codec)
    requires ByWorker(m) && CanTake(t, c, pc, m)
    requires !Unprepared(pc) || m.Reserve?
    ensures !Unprepared(NextPc(t, c, pc, m, codec))
  {
  }

  lemma StepMovesOne(s: System, m: Move, codec: Codec)
    requires Enabled(s, m)
    ensures OneMoves(s.workers, WorkersAfter(s, m, codec), MoverOf(m))
    ensures m.Reserve? ==> m.worker in s.workers && !Unprepared(WorkersAfter(s, m, codec)[m.worker].pc)
  {
    if ByWorker(m) {
      var worker := s.workers[m.worker];
      if !Unprepared(worker.pc) || m.Reserve? {
        StaysPrepared(s.tables, worker.caller, worker.pc, m, codec);
      }
    }
  }

  lemma PcsKept(before: map<CallId, Record>, after: map<CallId, Record>, workers: map<nat, Worker>,
                moved: map<nat, Worker>, mover: Option<nat>, codec: Codec)
    requires CallsGrow(before, after) && PcsOk(before, workers, codec) && OneMoves(workers, moved, mover)
    requires mover.Some? && mover.value in workers ==>
               PcOk(after, moved[mover.value].caller, moved[mover.value].pc, codec)
    ensures PcsOk(after, moved, codec)
  {
    forall w | w in workers && mover != Some(w)
      ensures PcOk(after, moved[w].caller, moved[w].pc, codec)
    {
      PcOkStable(before, after, workers[w].caller, workers[w].pc, codec);
    }
  }

  lemma PcsPreserved(s: System, m: Move, codec: Codec)
    requires Inv(s, codec) && Enabled(s, m)
    ensures CallersAgree(WorkersAfter(s, m, codec))
    ensures PcsOk(TablesAfter(s, m, codec).calls, WorkersAfter(s, m, codec), codec)
  {
    StepGrows(s, m, codec);
    StepMovesOne(s, m, codec);
    if ByWorker(m) {
      MoverOk(s, m, codec);
      WorkerOk(s, m, codec);
    }
    PcsKept(s.tables.calls, TablesAfter(s, m, codec).calls, s.workers, WorkersAfter(s, m, codec), MoverOf(m), codec);
  }

  /** The creators after a step: the mover created whatever record is new. */
  ghost predicate CreatorsGrow(after: map<CallId, Record>, creators: map<CallId, nat>, grown: map<CallId, nat>,
                               mover: Option<nat>)
  {
    && grown.Keys == after.Keys
    && forall id :: id in grown ==> if id in creators then grown[id] == creators[id] else Some(grown[id]) == mover
  }

  /** `id` is the attempt a worker was preparing, and it may be opened. */
  predicate Opened(calls: map<CallId, Record>, worker: Worker, moved: Worker, id: CallId, record: Record) {
    var previous := id.(attempt := id.attempt - 1);
    && record.id == id
    && Unprepared(worker.pc) && !Unprepared(moved.pc)
    && id == CallOf(worker.caller, id.attempt) && id.attempt >= 1
    && (id.attempt > 1 ==>
          previous in calls && (worker.caller.forced || calls[previous].state.FailedRetryableNotSent?))
  }

  lemma OnlyOpened(s: System, m: Move, codec: Codec, id: CallId)
    requires Inv(s, codec) && Enabled(s, m)
    requires id in TablesAfter(s, m, codec).calls && id !in s.tables.calls
    ensures ByWorker(m) && m.worker in s.workers
    ensures Opened(s.tables.calls, s.workers[m.worker], WorkersAfter(s, m, codec)[m.worker], id,
                   TablesAfter(s, m, codec).calls[id])
  {
    StepOnCall(s, m, codec, id);
    StepMovesOne(s, m, codec);
    assert PcOk(s.tables.calls, s.workers[m.worker].caller, s.workers[m.worker].pc, codec);
  }

  lemma FollowsKept(before: map<CallId, Record>, after: map<CallId, Record>, creators: map<CallId, nat>,
                    grown: map<CallId, nat>, workers: map<nat, Worker>, moved: map<nat, Worker>, mover: Option<nat>,
                    id: CallId)
    requires CallsGrow(before, after) && Chained(before, creators, workers)
    requires OneMoves(workers, moved, mover) && CreatorsGrow(after, creators, grown, mover)
    requires id in after && (id !in before ==>
               mover.Some? && mover.value in workers &&
                 Opened(before, workers[mover.value], moved[mover.value], id, after[id]))
    ensures after[id].id == id && grown[id] in moved && id == CallOf(moved[grown[id]].caller, id.attempt)
    ensures !Unprepared(moved[grown[id]].pc)
    ensures Follows(after, grown, moved, id)
  {
    if id in before {
      assert Follows(before, creators, workers, id);
    }
  }

  lemma LinkKept(s: System, m: Move, codec: Codec, id: CallId)
    requires Inv(s, codec) && Enabled(s, m) && id in TablesAfter(s, m, codec).calls
    requires CallsGrow(s.tables.calls, TablesAfter(s, m, codec).calls)
    requires OneMoves(s.workers, WorkersAfter(s, m, codec), MoverOf(m))
    requires CreatorsGrow(TablesAfter(s, m, codec).calls, s.creators, CreatorsAfter(s, m, codec), MoverOf(m))
    ensures var calls, creators, workers :=
            TablesAfter(s, m, codec).calls, CreatorsAfter(s, m, codec), WorkersAfter(s, m, codec);
            && calls[id].id == id && creators[id] in workers && id == CallOf(workers[creators[id]].caller, id.attempt)
            && !Unprepared(workers[creators[id]].pc) && Follows(calls, creators, workers, id)
  {
    if id !in s.tables.calls {
      OnlyOpened(s, m, codec, id);
    }
    FollowsKept(s.tables.calls, TablesAfter(s, m, codec).calls, s.creators, CreatorsAfter(s, m, codec),
                s.workers, WorkersAfter(s, m, codec), MoverOf(m), id);
  }

  lemma ChainedPreserved(s: System, m: Move, codec: Codec)
    requires Inv(s, codec) && Enabled(s, m)
    ensures Chained(TablesAfter(s, m, codec).calls, CreatorsAfter(s, m, codec), WorkersAfter(s, m, codec))
  {
    var calls, creators, workers :=
      TablesAfter(s, m, codec).calls, CreatorsAfter(s, m, codec), WorkersAfter(s, m, codec);
    StepGrows(s, m, codec);
    StepMovesOne(s, m, codec);
    CreatorsGrown(s, m, codec);
    forall id | id in calls
      ensures calls[id].id == id && creators[id] in workers && id == CallOf(workers[creators[id]].caller, id.attempt)
      ensures !Unprepared(workers[creators[id]].pc) && Follows(calls, creators, workers, id)
    {
      LinkKept(s, m, codec, id);
    }
    CreatorsApart(s, m, codec);
  }

  lemma CreatorsApart(s: System, m: Move, codec: Codec)
    requires Inv(s, codec) && Enabled(s, m)
    ensures var creators := CreatorsAfter(s, m, codec);
            forall x, y :: x in creators && y in creators && creators[x] == creators[y] ==> x == y
  {
    var creators := CreatorsAfter(s, m, codec);
    forall x, y | x in creators && y in creators && creators[x] == creators[y]
      ensures x == y
    {
      CreatorsPreserved(s, m, codec, x, y);
    }
  }

  lemma CreatorsPreserved(s: System, m: Move, codec: Codec, x: CallId, y: CallId)
    requires Inv(s, codec) && Enabled(s, m)
    requires var creators := CreatorsAfter(s, m, codec);
             x in creators && y in creators && creators[x] == creators[y]
    ensures x == y
  {
    StepOnCall(s, m, codec, x);
    StepOnCall(s, m, codec, y);
  }

  lemma CreatorsGrown(s: System, m: Move, codec: Codec)
    requires Inv(s, codec) && Enabled(s, m)
    ensures CreatorsGrow(TablesAfter(s, m, codec).calls, s.creators, CreatorsAfter(s, m, codec), MoverOf(m))
  {
    forall id | id in s.tables.calls || id in TablesAfter(s, m, codec).calls
      ensures id in s.tables.calls ==> id in TablesAfter(s, m, codec).calls
      ensures id in TablesAfter(s, m, codec).calls && id !in s.tables.calls ==> ByWorker(m)
    {
      StepOnCall(s, m, codec, id);
    }
    CreatorsFollow(s, m, codec);
  }

  lemma CreatorsFollow(s: System, m: Move, codec: Codec)
    requires Enabled(s, m) && s.creators.Keys == s.tables.calls.Keys
    requires forall id :: id in s.tables.calls ==> id in TablesAfter(s, m, codec).calls
    requires forall id :: id in TablesAfter(s, m, codec).calls && id !in s.tables.calls ==> ByWorker(m)
    ensures CreatorsGrow(TablesAfter(s, m, codec).calls, s.creators, CreatorsAfter(s, m, codec), MoverOf(m))
  {
  }

  lemma OnlyClaimsHold(t: Tables, c: Caller, pc: Pc, m: Move, codec: Codec, id: CallId)
    requires ByWorker(m) && CanTake(t, c, pc, m) && Holds(NextPc(t, c, pc, m, codec), id)
    ensures NextPc(t, c, pc, m, codec).Sending? ==> m.Claim?
    ensures Holds(pc, id) || (m.Claim? && pc.Claiming? && id in t.calls && t.calls[id].state.Prepared?)
  {
  }

  /** A program counter that holds a call got it by a claim while the call was still prepared, or held it before. */
  lemma HolderCame(s: System, m: Move, codec: Codec, w: nat, id: CallId, after: Pc)
    requires Inv(s, codec) && Enabled(s, m) && w in s.workers && Holds(after, id)
    requires after == if ByWorker(m) && w == m.worker
                      then NextPc(s.tables, s.workers[w].caller, s.workers[w].pc, m, codec) else s.workers[w].pc
    ensures if Holds(s.workers[w].pc, id) then Known(s.tables.calls, id)
            else m.Claim? && w == m.worker && !Known(s.tables.calls, id)
    ensures after.Sending? && Holds(s.workers[w].pc, id) ==> s.workers[w].pc.Sending? && !(ByWorker(m) && w == m.worker)
  {
    if ByWorker(m) && w == m.worker {
      OnlyClaimsHold(s.tables, s.workers[w].caller, s.workers[w].pc, m, codec, id);
    }
    assert PcOk(s.tables.calls, s.workers[w].caller, s.workers[w].pc, codec);
  }

  /** The same of the workers after a step. */
  lemma HoldersCome(s: System, m: Move, codec: Codec, w: nat, id: CallId)
    requires Inv(s, codec) && Enabled(s, m)
    requires w in WorkersAfter(s, m, codec) && Holds(WorkersAfter(s, m, codec)[w].pc, id)
    ensures w in s.workers
    ensures if Holds(s.workers[w].pc, id) then Known(s.tables.calls, id)
            else m.Claim? && w == m.worker && !Known(s.tables.calls, id)
    ensures WorkersAfter(s, m, codec)[w].pc.Sending? && Holds(s.workers[w].pc, id) ==>
              s.workers[w].pc.Sending? && !(ByWorker(m) && w == m.worker)
  {
    HolderCame(s, m, codec, w, id, WorkersAfter(s, m, codec)[w].pc);
  }

  lemma HoldersApart(s: System, m: Move, codec: Codec, v: nat, w: nat, id: CallId)
    requires Inv(s, codec) && Enabled(s, m)
    requires var workers := WorkersAfter(s, m, codec);
             v in workers && w in workers && Holds(workers[v].pc, id) && Holds(workers[w].pc, id)
    ensures v == w
  {
    HoldersCome(s, m, codec, v, id);
    HoldersCome(s, m, codec, w, id);
  }

  lemma SendersUnposted(s: System, m: Move, codec: Codec, w: nat)
    requires Inv(s, codec) && Enabled(s, m)
    requires w in WorkersAfter(s, m, codec) && WorkersAfter(s, m, codec)[w].pc.Sending?
    ensures WorkersAfter(s, m, codec)[w].pc.id !in PostsAfter(s, m)
  {
    var id := WorkersAfter(s, m, codec)[w].pc.id;
    HoldersCome(s, m, codec, w, id);
    UnpostedStays(s, m, w, id);
  }

  /** A call its worker still has to send, or has just claimed, is not posted by the step. */
  lemma UnpostedStays(s: System, m: Move, w: nat, id: CallId)
    requires PostedOnce(s.tables.calls, s.posts, s.workers) && Enabled(s, m) && w in s.workers
    requires if Holds(s.workers[w].pc, id) then s.workers[w].pc.Sending? && !(ByWorker(m) && w == m.worker)
             else m.Claim? && !Known(s.tables.calls, id)
    ensures id !in PostsAfter(s, m)
  {
    if m.Post? {
      assert !Holds(s.workers[m.worker].pc, id);
    }
  }

  lemma PostsKept(before: map<CallId, Record>, after: map<CallId, Record>, posts: seq<CallId>)
    requires CallsGrow(before, after)
    requires forall i :: 0 <= i < |posts| ==> Known(before, posts[i])
    ensures forall i :: 0 <= i < |posts| ==> Known(after, posts[i])
  {
    forall i | 0 <= i < |posts|
      ensures Known(after, posts[i])
    {
      assert Grows(before[posts[i]], after[posts[i]]);
    }
  }

  lemma PostIsNew(s: System, m: Move, codec: Codec)
    requires Inv(s, codec) && Enabled(s, m) && m.Post?
    ensures Known(s.tables.calls, s.workers[m.worker].pc.id) && s.workers[m.worker].pc.id !in s.posts
  {
    assert PcOk(s.tables.calls, s.workers[m.worker].caller, s.workers[m.worker].pc, codec);
  }

  lemma PostsKnown(s: System, m: Move, codec: Codec)
    requires Enabled(s, m) && PostedOnce(s.tables.calls, s.posts, s.workers)
    requires CallsGrow(s.tables.calls, TablesAfter(s, m, codec).calls)
    requires m.Post? ==> Known(s.tables.calls, s.workers[m.worker].pc.id)
    ensures forall i :: 0 <= i < |PostsAfter(s, m)| ==> Known(TablesAfter(s, m, codec).calls, PostsAfter(s, m)[i])
  {
    PostsKept(s.tables.calls, TablesAfter(s, m, codec).calls, PostsAfter(s, m));
  }

  lemma PostsApart(s: System, m: Move, codec: Codec)
    requires Inv(s, codec) && Enabled(s, m)
    ensures forall i, j :: 0 <= i < j < |PostsAfter(s, m)| ==> PostsAfter(s, m)[i] != PostsAfter(s, m)[j]
  {
    if m.Post? {
      PostIsNew(s, m, codec);
    }
  }

  lemma PostedPreserved(s: System, m: Move, codec: Codec)
    requires Inv(s, codec) && Enabled(s, m)
    ensures PostedOnce(TablesAfter(s, m, codec).calls, PostsAfter(s, m), WorkersAfter(s, m, codec))
  {
    StepGrows(s, m, codec);
    if m.Post? {
      PostIsNew(s, m, codec);
    }
    PostsKnown(s, m, codec);
    PostsApart(s, m, codec);
    SendersApart(s, m, codec);
  }

  lemma SendersApart(s: System, m: Move, codec: Codec)
    requires Inv(s, codec) && Enabled(s, m)
    ensures var workers := WorkersAfter(s, m, codec);
            && (forall w :: w in workers && workers[w].pc.Sending? ==> workers[w].pc.id !in PostsAfter(s, m))
            && (forall v, w, id ::
                  v in workers && w in workers && Holds(workers[v].pc, id) && Holds(workers[w].pc, id) ==> v == w)
  {
    var workers := WorkersAfter(s, m, codec);
    forall w | w in workers && workers[w].pc.Sending?
      ensures workers[w].pc.id !in PostsAfter(s, m)
    {
      SendersUnposted(s, m, codec, w);
    }
    forall v, w, id | v in workers && w in workers && Holds(workers[v].pc, id) && Holds(workers[w].pc, id)
      ensures v == w
    {
      HoldersApart(s, m, codec, v, w, id);
    }
  }

  lemma {:induction false} StepPreserves(s: System, m: Move, codec: Codec)
    requires Inv(s, codec)
    ensures Inv(Next(s, m, codec), codec)
  {
    if Enabled(s, m) {
      StepGrows(s, m, codec);
      PcsPreserved(s, m, codec);
      ChainedPreserved(s, m, codec);
      PostedPreserved(s, m, codec);
    }
  }

  lemma EmptyIsSound(s: System, codec: Codec)
    requires WellFormed(s.tables) && s.tables.calls == map[] && CallersAgree(s.workers) && s.posts == []
    requires s.creators == map[]
    requires forall w :: w in s.workers ==>
               s.workers[w].pc == if s.workers[w].caller.client.Nlu? then Preparing(1) else Starting
    ensures Inv(s, codec)
  {
  }

  lemma StartsSound(s: System, codec: Codec)
    requires Init(s, codec)
    ensures Inv(s, codec)
  {
    LedgerRuns.Invariants(s.history, codec.sanitize);
    EmptyIsSound(s, codec);
  }

  lemma {:induction false} RunPreserves(s: System, moves: seq<Move>, codec: Codec)
    requires Init(s, codec)
    ensures Inv(Run(s, moves, codec), codec)
  {
    if moves == [] {
      StartsSound(s, codec);
    } else {
      RunPreserves(s, moves[..|moves| - 1], codec);
      StepPreserves(Run(s, moves[..|moves| - 1], codec), moves[|moves| - 1], codec);
    }
  }

  lemma StepRecords(s: System, m: Move, codec: Codec)
    requires s.tables == Replay(s.history, codec.sanitize)
    ensures var u := Next(s, m, codec); u.tables == Replay(u.history, codec.sanitize)
  {
    var u := Next(s, m, codec);
    if Enabled(s, m) && TransactionOf(s, m).Some? {
      assert u.history[..|u.history| - 1] == s.history;
    }
  }

  /** The tables are always those of the ledger transactions made so far. */
  lemma {:induction false} RunRecords(s: System, moves: seq<Move>, codec: Codec)
    requires Init(s, codec)
    ensures var u := Run(s, moves, codec); u.tables == Replay(u.history, codec.sanitize)
  {
    if moves == [] {
    } else {
      RunRecords(s, moves[..|moves| - 1], codec);
      StepRecords(Run(s, moves[..|moves| - 1], codec), moves[|moves| - 1], codec);
    }
  }
}
