/**
 What each client makes of what it reads and is answered: which attempt it goes for, what it waits for, what
 it leaves in the ledger and what it returns. The safety laws say what never happens; these say what does.
 */
module DispatchAnswers {
  import opened Wrappers
  import opened ModelCallLedger
  import opened LedgerRuns
  import opened LedgerDecisions
  import opened DispatchProtocol

  // ----- The terminal transition -----

  /**
   The tables differ in the record of `id` alone, which ended in `state` with the given
   report and nothing charged.
   */
  predicate EndsIn(t: Tables, u: Tables, id: CallId, state: CallState, errorClass: string) {
    && id in t.calls
    && u == t.(calls := t.calls[id := t.calls[id].(state := state, responseDigest := "", actualTokens := 0,
                                                   errorClass := errorClass, revision := t.calls[id].revision + 1)])
  }

  /** The record of `id` succeeded with a payload and the usage it cost. */
  predicate AnsweredBy(t: Tables, u: Tables, id: CallId, data: Json, digest: string, usage: nat) {
    && id in t.calls
    && u.calls == t.calls[id := t.calls[id].(state := Succeeded, responseDigest := digest, actualTokens := usage,
                                             errorClass := "", response := Some(data),
                                             revision := t.calls[id].revision + 1)]
  }

  /** Every reservation of `id` is raised to the usage, and its bucket pays the difference. */
  ghost predicate ChargedUsage(t: Tables, u: Tables, id: CallId, usage: nat) {
    && u.reservations.Keys == t.reservations.Keys && u.buckets.Keys == t.buckets.Keys
    && (forall k :: k in t.reservations ==>
          u.reservations[k] == if k.0 == id && t.reservations[k] < usage then usage else t.reservations[k])
    && (forall b :: b in t.buckets ==>
          u.buckets[b].used - t.buckets[b].used ==
          if (id, b) in t.reservations && t.reservations[(id, b)] < usage then usage - t.reservations[(id, b)] else 0)
  }

  lemma SettlesPayload(s: System, m: Move, codec: Codec)
    requires Enabled(s, m) && m.Settle?
    requires var pc := s.workers[m.worker].pc;
             pc.answer.Payload? && pc.id in s.tables.calls && s.tables.calls[pc.id].state.DispatchIntent?
    ensures var worker, t, u := s.workers[m.worker], s.tables, TablesAfter(s, m, codec);
            var id, answer := worker.pc.id, worker.pc.answer;
            var usage := if worker.caller.client.DeepSeek? then answer.tokens else 0;
            if usage < 0 then u == t
            else (AnsweredBy(t, u, id, codec.sanitize(answer.data), answer.digest, usage)
                  && ChargedUsage(t, u, id, usage))
  {
    var worker := s.workers[m.worker];
    var change := SettleChange(worker.caller, worker.pc.id, worker.pc.answer).value;
    assert change.report.response == Some(worker.pc.answer.data);
    PayloadSettled(s.tables, change, worker.pc.answer.data, m.now, codec.sanitize);
  }

  lemma PayloadSettled(t: Tables, c: Change, data: Json, now: real, sanitize: Json -> Json)
    requires c.id in t.calls && t.calls[c.id].state.DispatchIntent?
    requires c.expected.DispatchIntent? && c.target.Succeeded? && !c.recoveryOnly
    requires c.report.response == Some(data) && c.report.errorClass == ""
    ensures var u, usage := Step(t, Transition(c, now), sanitize), c.report.actualTokens;
            if usage < 0 then u == t
            else (AnsweredBy(t, u, c.id, sanitize(data), c.report.responseDigest, usage)
                  && ChargedUsage(t, u, c.id, usage))
  {
    TransitionDecides(t, c, now, sanitize);
    if c.report.actualTokens >= 0 {
      RecordMoved(t, c, now, sanitize);
      ReportCharged(t, c, now, sanitize);
    }
  }

  lemma ReportCharged(t: Tables, c: Change, now: real, sanitize: Json -> Json)
    requires TransitionStep(t, c, now, sanitize).0.Ok? && c.report.actualTokens >= 0
    ensures ChargedUsage(t, Step(t, Transition(c, now), sanitize), c.id, c.report.actualTokens)
  {
    var u := Step(t, Transition(c, now), sanitize);
    forall k: (CallId, string)
      ensures k in u.reservations <==> k in t.reservations
      ensures k in t.reservations ==>
                u.reservations[k] == if k.0 == c.id && t.reservations[k] < c.report.actualTokens
                                     then c.report.actualTokens else t.reservations[k]
    {
      UsageCharged(t, c, now, sanitize, k, k.1);
    }
    forall b
      ensures b in u.buckets <==> b in t.buckets
      ensures b in t.buckets ==>
                u.buckets[b].used - t.buckets[b].used ==
                if (c.id, b) in t.reservations && t.reservations[(c.id, b)] < c.report.actualTokens
                then c.report.actualTokens - t.reservations[(c.id, b)] else 0
    {
      UsageCharged(t, c, now, sanitize, (c.id, b), b);
    }
  }

  /**
   An answer without a payload ends the call as failed or unknown, or leaves the intent of
   the first client standing.
   */
  lemma SettlesFailure(s: System, m: Move, codec: Codec)
    requires Enabled(s, m) && m.Settle?
    requires var pc := s.workers[m.worker].pc;
             !pc.answer.Payload? && pc.id in s.tables.calls && s.tables.calls[pc.id].state.DispatchIntent?
    requires forall k :: k in s.tables.reservations ==> s.tables.reservations[k] >= 0
    ensures var worker, t, u := s.workers[m.worker], s.tables, TablesAfter(s, m, codec);
            var id := worker.pc.id;
            if worker.caller.client.Nlu? then EndsIn(t, u, id, OutcomeUnknown, "nlu_provider_failed")
            else match worker.pc.answer
                 case HttpError(status) => EndsIn(t, u, id, FailedFinal, "http_" + status)
                 case ConnectionLost(kind) => EndsIn(t, u, id, OutcomeUnknown, kind)
                 case _ => u == t
  {
    var t, worker := s.tables, s.workers[m.worker];
    var change := SettleChange(worker.caller, worker.pc.id, worker.pc.answer);
    if change.Some? {
      NothingCharged(t, change.value, codec.sanitize);
    }
  }

  lemma NothingCharged(t: Tables, c: Change, sanitize: Json -> Json)
    requires c.id in t.calls && c.report.actualTokens == 0
    requires forall k :: k in t.reservations ==> t.reservations[k] >= 0
    ensures Settled(t, c, sanitize) == t.(calls := t.calls[c.id := Moved(t.calls[c.id], c, sanitize)])
  {
    var u := Settled(t, c, sanitize);
    assert u.reservations == t.reservations && u.buckets == t.buckets;
  }

  /** What the worker makes of it: the message of the payload it was sent, or an error. */
  lemma SettlerEnds(s: System, m: Move, codec: Codec)
    requires Enabled(s, m) && m.Settle? && s.workers[m.worker].pc.id in s.tables.calls
    ensures var worker, after := s.workers[m.worker], WorkersAfter(s, m, codec)[m.worker].pc;
            var answer, first := worker.pc.answer, worker.caller.client.DeepSeek?;
            var usage := if answer.Payload? && first then answer.tokens else 0;
            if first && answer.Broken? then after == Failed(Transport)
            else if !s.tables.calls[worker.pc.id].state.DispatchIntent? then after == Failed(Refused(ModelCallConflict))
            else if usage < 0 then after == Failed(Refused(ValueError))
            else if answer.Payload? then
              match codec.message(worker.caller.client, answer.data)
              case Some(message) => after == Returned(message, worker.pc.id, Some(answer.data))
              case None => after == Failed(Malformed)
            else after == Failed(if first && answer.HttpError? then Transport else UnknownOutcome)
  {
    var worker := s.workers[m.worker];
    var change := SettleChange(worker.caller, worker.pc.id, worker.pc.answer);
    if change.Some? {
      TransitionDecides(s.tables, change.value, m.now, codec.sanitize);
    }
  }

  // ----- Claiming and sending -----

  /**
   A claim moves a prepared record to a dispatch intent if the caller's operation is the one bound and it
   holds its lease; the worker then sends. Otherwise nothing changes, and the first client waits for the winner.
   */
  lemma ClaimDecides(s: System, m: Move, codec: Codec)
    requires Enabled(s, m) && m.Claim?
    requires forall k :: k in s.tables.reservations ==> s.tables.reservations[k] >= 0
    ensures var worker, t, u := s.workers[m.worker], s.tables, TablesAfter(s, m, codec);
            var after, id, claim := WorkersAfter(s, m, codec)[m.worker].pc, worker.pc.id, worker.caller.template.claim;
            var wins := id in t.calls && t.calls[id].state.Prepared? && (id in t.attempts <==> claim.Some?)
                        && (claim.Some? ==> t.attempts[id].operation == claim.value.operation
                                            && HeldBy(t.operations, claim.value, m.now));
            if wins then EndsIn(t, u, id, DispatchIntent, "") && after == Sending(id)
            else u == t && after ==
                 if worker.caller.client.DeepSeek? then Polling(id, AfterLostRace) else Failed(Conflict)
  {
    var t, worker := s.tables, s.workers[m.worker];
    var change := ClaimChange(worker.caller, worker.pc.id);
    TransitionDecides(t, change, m.now, codec.sanitize);
    if change.id in t.calls {
      NothingCharged(t, change, codec.sanitize);
    }
  }

  /** Sending posts the call once and keeps its answer. */
  lemma PostSends(s: System, m: Move, codec: Codec)
    requires Enabled(s, m) && m.Post?
    ensures var u, id := Next(s, m, codec), s.workers[m.worker].pc.id;
            && u.posts == s.posts + [id] && u.tables == s.tables
            && u.workers == s.workers[m.worker := s.workers[m.worker].(pc := Settling(id, m.answer))]
  {
  }

  // ----- Choosing an attempt -----

  /** What loading a record that succeeded gives the caller. */
  predicate Delivers(c: Caller, record: Record, after: Pc, codec: Codec) {
    match record.response
    case None => after == Failed(Conflict)
    case Some(response) =>
      match codec.message(c.client, response)
      case None => after == Failed(Malformed)
      case Some(message) => after == Returned(message, record.id, None)
  }

  /**
   The records of the request are all of this very call: same provider, purpose, endpoint,
   model, contents, session.
   */
  predicate AllAlike(c: Caller, rows: seq<Record>) {
    forall i :: 0 <= i < |rows| ==>
      && rows[i].id.provider == c.template.id.provider && rows[i].id.purpose == c.template.id.purpose
      && rows[i].endpoint == c.template.endpoint && rows[i].model == c.template.model
      && rows[i].payloadDigest == c.template.payloadDigest && rows[i].session == c.template.session
  }

  /** The attempt a caller goes for: the last one while it is only prepared, else the next. */
  predicate GoesFor(rows: seq<Record>, attempt: int) {
    if |rows| > 0 && rows[|rows| - 1].state.Prepared? then attempt == rows[|rows| - 1].id.attempt
    else attempt == |rows| + 1
  }

  lemma ListDecides(s: System, m: Move, codec: Codec)
    requires Enabled(s, m) && m.List?
    ensures var c, rows, after := s.workers[m.worker].caller, m.rows, WorkersAfter(s, m, codec)[m.worker].pc;
            var last := if |rows| > 0 && !c.forced then Some(rows[|rows| - 1]) else None;
            && TablesAfter(s, m, codec) == s.tables && PostsAfter(s, m) == s.posts
            && if !AllAlike(c, rows) then after == Failed(Conflict)
               else if last.Some? && last.value.state.Succeeded? then Delivers(c, last.value, after, codec)
               else if last.Some? && last.value.state.DispatchIntent? then
                 after.Polling? && after.id == last.value.id && after.stage == AfterListing(|rows| + 1)
               else if last.Some? && last.value.state.OutcomeUnknown? then after == Failed(UnknownOutcome)
               else if last.Some? && last.value.state.FailedFinal? then after == Failed(Conflict)
               else after.Preparing? && GoesFor(rows, after.attempt)
  {
  }

  /** What a waiting worker does with what it reads, and when it has read often enough. */
  lemma PollDecides(s: System, m: Move, codec: Codec)
    requires Enabled(s, m) && (m.Poll? || m.GiveUp?)
    ensures var worker, t, after := s.workers[m.worker], s.tables, WorkersAfter(s, m, codec)[m.worker].pc;
            var pc := worker.pc;
            && TablesAfter(s, m, codec) == t && PostsAfter(s, m) == s.posts
            && if m.GiveUp? then after == Failed(UnknownOutcome)
               else if pc.id !in t.calls || t.calls[pc.id].state.DispatchIntent? then after == pc
               else if t.calls[pc.id].state.Succeeded? then Delivers(worker.caller, t.calls[pc.id], after, codec)
               else if pc.stage.AfterLostRace? || t.calls[pc.id].state.OutcomeUnknown? then
                 after == Failed(UnknownOutcome)
               else if pc.stage.AfterPrepare? then after == Claiming(t.calls[pc.id].id)
               else if t.calls[pc.id].state.FailedFinal? then after == Failed(Conflict)
               else after == Preparing(pc.stage.attempt)
  {
  }

  /** A worker refused by its prepare changed nothing; one that added a record goes on to claim it. */
  lemma ReserveAdds(s: System, m: Move, codec: Codec)
    requires Enabled(s, m) && m.Reserve?
    ensures var worker, t, u := s.workers[m.worker], s.tables, TablesAfter(s, m, codec);
            var after, id := WorkersAfter(s, m, codec)[m.worker].pc, CallOf(worker.caller, worker.pc.attempt);
            && (after.Failed? && after.failure.Refused? ==> u == t)
            && (id in t.calls ==> u == t)
            && (id !in t.calls && id in u.calls ==> after == Claiming(id))
  {
    var worker := s.workers[m.worker];
    var req := worker.caller.template.(id := CallOf(worker.caller, worker.pc.attempt));
    if PrepareStep(s.tables, req, m.now, m.today).1 != s.tables {
      PrepareCreates(s.tables, req, m.now, m.today);
    }
  }

  /** What a worker does with the record its prepare found. */
  lemma ReserveDecides(s: System, m: Move, codec: Codec)
    requires Enabled(s, m) && m.Reserve? && WellFormed(s.tables)
    ensures var worker, t := s.workers[m.worker], s.tables;
            var c, after, id :=
              worker.caller, WorkersAfter(s, m, codec)[m.worker].pc, CallOf(worker.caller, worker.pc.attempt);
            && (id in t.calls && !(after.Failed? && after.failure.Refused?) ==>
                  match t.calls[id].state
                  case Succeeded => Delivers(c, t.calls[id], after, codec)
                  case Prepared => after == Claiming(id)
                  case OutcomeUnknown => after == Failed(UnknownOutcome)
                  case DispatchIntent =>
                    after == if c.client.DeepSeek? then Polling(id, AfterPrepare) else Failed(UnknownOutcome)
                  case _ => after == if c.client.DeepSeek? then Claiming(id) else Failed(UnknownOutcome))
  {
    var worker := s.workers[m.worker];
    var req := worker.caller.template.(id := CallOf(worker.caller, worker.pc.attempt));
    PrepareDecides(s.tables, req, m.now, m.today);
  }

  /** A worker is refused by its prepare exactly if the ledger refuses the request. */
  lemma ReserveRefused(s: System, m: Move, codec: Codec)
    requires Enabled(s, m) && m.Reserve?
    ensures var worker, t := s.workers[m.worker], s.tables;
            var after, c := WorkersAfter(s, m, codec)[m.worker].pc, worker.caller;
            var req := c.template.(id := c.template.id.(attempt := worker.pc.attempt));
            var conflict := (req.claim.Some? && !HeldBy(t.operations, req.claim.value, m.now))
                            || (req.id in t.calls && !RecordedAlike(t, req));
            var admitted := (req.claim.Some? ==> HasAttemptLeft(t, req.claim.value.operation, req.id.purpose))
                            && forall b :: WellPosed(req) && ChargedTo(req, m.today, b) ==>
                                 Fits(t.buckets, b, AskedFor(req, m.today, b), req.estimate);
            && (after == Failed(Refused(ValueError)) <==> !WellPosed(req))
            && (after == Failed(Refused(ModelCallConflict)) <==> WellPosed(req) && conflict)
            && (after == Failed(Refused(BudgetExceeded)) <==>
                  WellPosed(req) && !conflict && req.id !in t.calls && !admitted)
  {
    var worker := s.workers[m.worker];
    PrepareDecides(s.tables, worker.caller.template.(id := CallOf(worker.caller, worker.pc.attempt)), m.now, m.today);
  }

  // ----- Starts, ends and moves of nobody's -----

  /** Any callers may start over an empty ledger if those of one request agree on client, provider and purpose. */
  lemma AnyCallersStart(callers: map<nat, Caller>, codec: Codec)
    requires forall v, w :: v in callers && w in callers ==>
               var a, b := callers[v].template.id, callers[w].template.id;
               a.logical == b.logical ==>
                 a.provider == b.provider && a.purpose == b.purpose && callers[v].client == callers[w].client
    ensures var workers := map w | w in callers ::
                             Worker(callers[w], if callers[w].client.DeepSeek? then Starting else Preparing(1));
            Init(System(EMPTY_TABLES, [], workers, [], map[]), codec)
  {
  }

  /** A run goes on from where its beginning led, and a run of one move is that move. */
  lemma {:induction false} RunInTwo(s: System, a: seq<Move>, b: seq<Move>, codec: Codec)
    ensures Run(s, a + b, codec) == Run(Run(s, a, codec), b, codec)
    ensures |b| == 1 ==> Run(s, b, codec) == Next(s, b[0], codec)
    decreases |b|
  {
    if b == [] {
      assert a + b == a;
    } else {
      var last := |b| - 1;
      assert (a + b)[..|a| + last] == a + b[..last];
      RunInTwo(s, a, b[..last], codec);
    }
  }

  predicate Finished(pc: Pc) {
    pc.Returned? || pc.Failed?
  }

  /** What a worker has returned or raised stays so whatever happens after it. */
  lemma {:induction false} FinishedForGood(s: System, moves: seq<Move>, w: nat, codec: Codec)
    requires w in s.workers && Finished(s.workers[w].pc)
    ensures var t := Run(s, moves, codec); w in t.workers && t.workers[w] == s.workers[w]
    decreases |moves|
  {
    if moves != [] {
      FinishedForGood(s, moves[..|moves| - 1], w, codec);
    }
  }

  /** A worker can crash until it has finished; the tables and the calls posted do not change. */
  lemma CrashDecides(s: System, w: nat, codec: Codec)
    requires w in s.workers
    ensures var worker, t := s.workers[w], Next(s, Crash(w), codec);
            if Finished(worker.pc) then t == s
            else && t.workers == s.workers[w := worker.(pc := Failed(Crashed))]
                 && t.tables == s.tables && t.posts == s.posts
  {
  }

  /** The records can be listed by attempt. */
  lemma {:induction false} Listed(records: set<Record>) returns (rows: seq<Record>)
    ensures multiset(rows) == multiset(records) && ByAttempt(rows)
    decreases |records|
  {
    if records == {} {
      rows := [];
    } else {
      var row :| row in records;
      var rest := Listed(records - {row});
      InsertKeepsOrder(rest, row);
      rows := InsertByAttempt(rest, row);
    }
  }

  /** A worker that has not finished always has a step of its own besides crashing; one that has finished has none. */
  lemma NobodyIsStuck(s: System, w: nat)
    requires w in s.workers
    ensures !Finished(s.workers[w].pc) <==> exists m :: ByWorker(m) && m.worker == w && !m.Crash? && Enabled(s, m)
  {
    var pc := s.workers[w].pc;
    match pc
    case Starting =>
      var rows := Listed(RecordsOf(s.tables.calls, Logical(s.workers[w].caller)));
      assert Enabled(s, List(w, rows));
    case Polling(_, _) =>
      assert Enabled(s, Poll(w)) && Enabled(s, GiveUp(w));
    case Preparing(_) =>
      assert Enabled(s, Reserve(w, 0.0, ""));
    case Claiming(_) =>
      assert Enabled(s, Move.Claim(w, 0.0));
    case Sending(_) =>
      assert Enabled(s, Post(w, Broken));
    case Settling(_, _) =>
      assert Enabled(s, Settle(w, 0.0));
    case _ =>
  }

  /** A record still prepared can be given up; nothing else can, and no worker hears of it but from the tables. */
  lemma AbandonDecides(s: System, m: Move, codec: Codec)
    requires m.Abandon?
    requires forall k :: k in s.tables.reservations ==> s.tables.reservations[k] >= 0
    ensures var t, u := s.tables, Next(s, m, codec);
            && u.workers == s.workers && u.posts == s.posts
            && if m.call in t.calls && t.calls[m.call].state.Prepared?
               then EndsIn(t, u.tables, m.call, if m.final then FailedFinal else FailedRetryableNotSent, "")
               else u.tables == t
  {
    var change := TransactionOf(s, m).value.change;
    TransitionDecides(s.tables, change, m.now, codec.sanitize);
    if m.call in s.tables.calls {
      NothingCharged(s.tables, change, codec.sanitize);
    }
  }

  /** Recovery closes the intents that nobody holds; the runtime's own writes touch no call and no budget. */
  lemma OthersDecide(s: System, m: Move, codec: Codec)
    requires (m.Recover? || m.Operate?) && WellFormed(s.tables)
    ensures var t, u := s.tables, Next(s, m, codec);
            && u.workers == s.workers && u.posts == s.posts
            && if m.Operate? then
                 u.tables == t.(operations := u.tables.operations, limits := u.tables.limits)
               else if && m.call in t.calls && t.calls[m.call].state.DispatchIntent?
                       && (m.call in t.attempts ==> NobodyHolds(t.operations, t.attempts[m.call].operation, m.now)) then
                 EndsIn(t, u.tables, m.call, OutcomeUnknown, "recovered_dispatch_intent")
               else u.tables == t
  {
    if m.Recover? && m.call in s.tables.calls {
      RecoveredRecord(s.tables, m.call, m.now, codec.sanitize);
    }
  }

  // ----- A call left alone -----

  /**
   A worker about to prepare a fresh attempt that the ledger admits, and that nobody disturbs, posts it once,
   records the answer and returns its message.
   */
  lemma LoneCallReturns(s: System, w: nat, now: real, today: string, data: Json, digest: string, tokens: nat,
                        codec: Codec)
    requires WellFormed(s.tables) && w in s.workers && s.workers[w].pc.Preparing?
    requires var c := s.workers[w].caller;
             var id := CallOf(c, s.workers[w].pc.attempt);
             && id !in s.tables.calls
             && PrepareStep(s.tables, c.template.(id := id), now, today).0.Ok?
             && codec.message(c.client, data).Some?
    ensures var c := s.workers[w].caller;
            var id := CallOf(c, s.workers[w].pc.attempt);
            var u := Next(Next(Next(Next(s, Reserve(w, now, today), codec), Move.Claim(w, now), codec),
                               Post(w, Payload(data, digest, tokens)), codec), Settle(w, now), codec);
            && u.workers[w].pc == Returned(codec.message(c.client, data).value, id, Some(data))
            && u.posts == s.posts + [id]
            && id in u.tables.calls && u.tables.calls[id].state.Succeeded?
            && u.tables.calls[id].response == Some(codec.sanitize(data))
  {
    var c := s.workers[w].caller;
    var id := CallOf(c, s.workers[w].pc.attempt);
    var s1 := Next(s, Reserve(w, now, today), codec);
    ReservedFirst(s, w, now, today, codec);
    var s2 := Next(s1, Move.Claim(w, now), codec);
    ClaimDecides(s1, Move.Claim(w, now), codec);
    assert s2.workers[w].pc == Sending(id);
    var s3 := Next(s2, Post(w, Payload(data, digest, tokens)), codec);
    PostSends(s2, Post(w, Payload(data, digest, tokens)), codec);
    SettlesPayload(s3, Settle(w, now), codec);
    SettlerEnds(s3, Settle(w, now), codec);
  }

  lemma ReservedFirst(s: System, w: nat, now: real, today: string, codec: Codec)
    requires WellFormed(s.tables) && w in s.workers && s.workers[w].pc.Preparing?
    requires var c := s.workers[w].caller;
             var id := CallOf(c, s.workers[w].pc.attempt);
             id !in s.tables.calls && PrepareStep(s.tables, c.template.(id := id), now, today).0.Ok?
    ensures var c := s.workers[w].caller;
            var id, u := CallOf(c, s.workers[w].pc.attempt), Next(s, Reserve(w, now, today), codec);
            && w in u.workers && u.workers[w] == s.workers[w].(pc := Claiming(id))
            && WellFormed(u.tables) && id in u.tables.calls && u.tables.calls[id].state.Prepared?
            && u.posts == s.posts
            && (id in u.tables.attempts <==> c.template.claim.Some?)
            && (c.template.claim.Some? ==> u.tables.attempts[id].operation == c.template.claim.value.operation
                                           && HeldBy(u.tables.operations, c.template.claim.value, now))
  {
    var c := s.workers[w].caller;
    var req := c.template.(id := CallOf(c, s.workers[w].pc.attempt));
    Fresh(s.tables, req, now, today, codec.sanitize);
    ReserveAdds(s, Reserve(w, now, today), codec);
    StepKeepsForm(s.tables, Prepare(req, now, today), codec.sanitize);
    assert Next(s, Reserve(w, now, today), codec).tables == Step(s.tables, Prepare(req, now, today), codec.sanitize);
  }

  lemma Fresh(t: Tables, req: Request, now: real, today: string, sanitize: Json -> Json)
    requires req.id !in t.calls && PrepareStep(t, req, now, today).0.Ok?
    ensures var u := Step(t, Prepare(req, now, today), sanitize);
            && req.id in u.calls && u.calls[req.id].state.Prepared?
            && u.attempts == (if req.claim.Some? then u.attempts else t.attempts)
            && (req.claim.Some? ==> req.id in u.attempts && u.attempts[req.id].operation == req.claim.value.operation
                                    && HeldBy(u.operations, req.claim.value, now))
  {
    PrepareDecides(t, req, now, today);
    RecordAdded(t, req, now, today, sanitize);
  }
}
