/**
 The clients of the ledger as a small-step system: `DeepSeekClient._ledger_request`
 (agent/deepseek_client.py) and `BudgetedNluProvider.complete` (agent/budgeted_nlu_provider.py).

 Any number of workers run in any interleaving. Every ledger transaction, every read of
 the ledger and every POST is one step; a worker may crash before any of its steps, leases
 expire because each step carries its own time, and recovery, abandonment of prepared
 attempts and changes of the runtime operations may happen between any two steps.
 */
module DispatchProtocol {
  import opened Wrappers
  import opened ModelCallLedger
  import opened LedgerRuns

  datatype Client = DeepSeek | Nlu

  /** One call of a client: `template` is its request, up to the attempt number. */
  datatype Caller = Caller(client: Client, forced: bool, template: Request)

  /** `sanitize` is what persisting leaves of a payload, `message` the part a client returns of it. */
  datatype Codec = Codec(sanitize: Json -> Json, message: (Client, Json) -> Option<Json>)

  datatype Stage = AfterListing(attempt: int) | AfterPrepare | AfterLostRace

  /** How a POST ends: an error status, a lost connection, any other exception, or a payload. */
  datatype Answer =
    | HttpError(status: string)
    | ConnectionLost(kind: string)
    | Broken
    | Payload(data: Json, digest: string, tokens: int)

  datatype Failure = UnknownOutcome | Conflict | Refused(error: Error) | Malformed | Transport | Crashed

  datatype Pc =
    | Starting
    | Preparing(attempt: int)
    | Polling(id: CallId, stage: Stage)
    | Claiming(id: CallId)
    | Sending(id: CallId)
    | Settling(id: CallId, answer: Answer)
    | Returned(value: Json, id: CallId, payload: Option<Json>)
    | Failed(failure: Failure)

  datatype Worker = Worker(caller: Caller, pc: Pc)

  datatype System = System(
    tables: Tables,
    history: seq<Event>,             // the ledger transactions that led to `tables`
    workers: map<nat, Worker>,
    posts: seq<CallId>,              // every HTTP request sent, in order
    creators: map<CallId, nat>)      // the worker whose prepare created each record

  function CallOf(c: Caller, attempt: int): CallId {
    c.template.id.(attempt := attempt)
  }

  function Logical(c: Caller): string {
    c.template.id.logical
  }

  // ----- The straight-line code between two steps -----

  function Load(c: Caller, record: Record, codec: Codec): Pc {
    var loaded := Loaded(record);
    if loaded.Ok? then
      var message := codec.message(c.client, loaded.value);
      if message.Some? then Returned(message.value, record.id, None) else Failed(Malformed)
    else Failed(Conflict)
  }

  predicate Matches(c: Caller, record: Record) {
    && record.id.provider == c.template.id.provider
    && record.id.purpose == c.template.id.purpose
    && SameIdentity(record, c.template)
  }

  function NextAttempt(rows: seq<Record>): int {
    if rows != [] && rows[|rows| - 1].state.Prepared? then rows[|rows| - 1].id.attempt else |rows| + 1
  }

  function AfterList(c: Caller, rows: seq<Record>, codec: Codec): Pc {
    if exists i :: 0 <= i < |rows| && !Matches(c, rows[i]) then Failed(Conflict)
    else if rows == [] || c.forced then Preparing(NextAttempt(rows))
    else
      var latest := rows[|rows| - 1];
      match latest.state
      case Succeeded => Load(c, latest, codec)
      case DispatchIntent => Polling(latest.id, AfterListing(NextAttempt(rows)))
      case OutcomeUnknown => Failed(UnknownOutcome)
      case FailedFinal => Failed(Conflict)
      case _ => Preparing(NextAttempt(rows))
  }

  /** After polling: with the record read, or with none once the polls are used up. */
  function Resume(c: Caller, stage: Stage, read: Option<Record>, codec: Codec): Pc {
    if read.None? then Failed(UnknownOutcome)
    else if read.value.state.Succeeded? then Load(c, read.value, codec)
    else if stage.AfterLostRace? || read.value.state.OutcomeUnknown? then Failed(UnknownOutcome)
    else if stage.AfterPrepare? then Claiming(read.value.id)
    else if read.value.state.FailedFinal? then Failed(Conflict)
    else Preparing(stage.attempt)
  }

  function AfterReserve(c: Caller, r: Outcome<Record>, codec: Codec): Pc {
    if r.Raise? then Failed(Refused(r.error))
    else if r.value.state.Succeeded? then Load(c, r.value, codec)
    else if c.client.Nlu? then
      if r.value.state.Prepared? then Claiming(r.value.id) else Failed(UnknownOutcome)
    else if r.value.state.DispatchIntent? then Polling(r.value.id, AfterPrepare)
    else if r.value.state.OutcomeUnknown? then Failed(UnknownOutcome)
    else Claiming(r.value.id)
  }

  function ClaimChange(c: Caller, id: CallId): Change {
    Change(id, Prepared, DispatchIntent, NO_REPORT, c.template.claim, false)
  }

  function AfterClaim(c: Caller, id: CallId, won: bool): Pc {
    if won then Sending(id)
    else if c.client.DeepSeek? then Polling(id, AfterLostRace)
    else Failed(Conflict)
  }

  /** The terminal transition an answer leads to; an unforeseen exception of the first client leads to none. */
  function SettleChange(c: Caller, id: CallId, answer: Answer): Option<Change> {
    match answer
    case Payload(data, digest, tokens) =>
      var reported := if c.client.DeepSeek? then tokens else 0;
      Some(Change(id, DispatchIntent, Succeeded, Report(digest, reported, "", Some(data)), None, false))
    case HttpError(status) =>
      if c.client.DeepSeek? then Some(Unanswered(id, FailedFinal, "http_" + status))
      else Some(Unanswered(id, OutcomeUnknown, "nlu_provider_failed"))
    case ConnectionLost(kind) =>
      Some(Unanswered(id, OutcomeUnknown, if c.client.DeepSeek? then kind else "nlu_provider_failed"))
    case Broken =>
      if c.client.DeepSeek? then None else Some(Unanswered(id, OutcomeUnknown, "nlu_provider_failed"))
  }

  function Unanswered(id: CallId, target: CallState, errorClass: string): Change {
    Change(id, DispatchIntent, target, Report("", 0, errorClass, None), None, false)
  }

  /** After the terminal transition, if the answer led to one, and what came of it. */
  function AfterSettle(c: Caller, id: CallId, answer: Answer, settled: Option<Outcome<Record>>, codec: Codec): Pc {
    if settled.None? then Failed(Transport)
    else if settled.value.Raise? then Failed(Refused(settled.value.error))
    else if answer.Payload? then
      var message := codec.message(c.client, answer.data);
      if message.Some? then Returned(message.value, id, Some(answer.data)) else Failed(Malformed)
    else if c.client.DeepSeek? && answer.HttpError? then Failed(Transport)
    else Failed(UnknownOutcome)
  }

  // ----- Steps -----

  datatype Move =
    | List(worker: nat, rows: seq<Record>)
    | Poll(worker: nat)
    | GiveUp(worker: nat)
    | Reserve(worker: nat, now: real, today: string)
    | Claim(worker: nat, now: real)
    | Post(worker: nat, answer: Answer)
    | Settle(worker: nat, now: real)
    | Crash(worker: nat)
    | Recover(call: CallId, now: real)
    | Abandon(call: CallId, final: bool, now: real)
    | Operate(operations: map<string, Operation>, newLimits: map<string, Limit>)

  /** The steps a worker at `pc` can take. */
  ghost predicate CanTake(t: Tables, c: Caller, pc: Pc, m: Move) {
    match m
    case List(_, rows) => pc.Starting? && IsListing(t.calls, Logical(c), rows)
    case Poll(_) => pc.Polling?
    case GiveUp(_) => pc.Polling?
    case Reserve(_, _, _) => pc.Preparing?
    case Claim(_, _) => pc.Claiming?
    case Post(_, _) => pc.Sending?
    case Settle(_, _) => pc.Settling?
    case Crash(_) => !pc.Returned? && !pc.Failed?
    case _ => false
  }

  predicate ByWorker(m: Move) {
    !m.Recover? && !m.Abandon? && !m.Operate?
  }

  ghost predicate Enabled(s: System, m: Move) {
    ByWorker(m) ==>
      m.worker in s.workers && CanTake(s.tables, s.workers[m.worker].caller, s.workers[m.worker].pc, m)
  }

  /** The ledger transaction of an enabled step. */
  ghost function TransactionOf(s: System, m: Move): Option<Event>
    requires Enabled(s, m)
  {
    match m
    case Reserve(w, now, today) =>
      var worker := s.workers[w];
      Some(Prepare(worker.caller.template.(id := CallOf(worker.caller, worker.pc.attempt)), now, today))
    case Claim(w, now) => Some(Transition(ClaimChange(s.workers[w].caller, s.workers[w].pc.id), now))
    case Settle(w, now) =>
      var change := SettleChange(s.workers[w].caller, s.workers[w].pc.id, s.workers[w].pc.answer);
      if change.Some? then Some(Transition(change.value, now)) else None
    case Recover(call, now) => Some(Transition(RecoveryOf(call), now))
    case Abandon(call, final, now) =>
      var target := if final then FailedFinal else FailedRetryableNotSent;
      Some(Transition(Change(call, Prepared, target, NO_REPORT, None, false), now))
    case Operate(operations, newLimits) => Some(Runtime(operations, newLimits))
    case _ => None
  }

  ghost function NextPc(t: Tables, c: Caller, pc: Pc, m: Move, codec: Codec): Pc
    requires ByWorker(m) && CanTake(t, c, pc, m)
  {
    match m
    case List(_, rows) => AfterList(c, rows, codec)
    case Poll(_) =>
      var read := Read(t.calls, pc.id);
      if read.Some? && !read.value.state.DispatchIntent? then Resume(c, pc.stage, read, codec) else pc
    case GiveUp(_) => Resume(c, pc.stage, None, codec)
    case Reserve(_, now, today) =>
      AfterReserve(c, PrepareStep(t, c.template.(id := CallOf(c, pc.attempt)), now, today).0, codec)
    case Claim(_, now) => AfterClaim(c, pc.id, TransitionStep(t, ClaimChange(c, pc.id), now, codec.sanitize).0.Ok?)
    case Post(_, answer) => Settling(pc.id, answer)
    case Settle(_, now) =>
      var change := SettleChange(c, pc.id, pc.answer);
      var settled := if change.None? then None else Some(TransitionStep(t, change.value, now, codec.sanitize).0);
      AfterSettle(c, pc.id, pc.answer, settled, codec)
    case Crash(_) => Failed(Crashed)
  }

  ghost function TablesAfter(s: System, m: Move, codec: Codec): Tables
    requires Enabled(s, m)
  {
    var e := TransactionOf(s, m);
    if e.Some? then Step(s.tables, e.value, codec.sanitize) else s.tables
  }

  ghost function HistoryAfter(s: System, m: Move): seq<Event>
    requires Enabled(s, m)
  {
    var e := TransactionOf(s, m);
    if e.Some? then s.history + [e.value] else s.history
  }

  ghost function WorkersAfter(s: System, m: Move, codec: Codec): map<nat, Worker>
    requires Enabled(s, m)
  {
    if !ByWorker(m) then s.workers
    else
      var worker := s.workers[m.worker];
      s.workers[m.worker := worker.(pc := NextPc(s.tables, worker.caller, worker.pc, m, codec))]
  }

  ghost function PostsAfter(s: System, m: Move): seq<CallId>
    requires Enabled(s, m)
  {
    if m.Post? then s.posts + [s.workers[m.worker].pc.id] else s.posts
  }

  /** A record that is new was created by the worker that moved. */
  ghost function CreatorsAfter(s: System, m: Move, codec: Codec): map<CallId, nat>
    requires Enabled(s, m)
  {
    if !ByWorker(m) then s.creators
    else map id | id in TablesAfter(s, m, codec).calls :: if id in s.creators then s.creators[id] else m.worker
  }

  /** The system after a step; a step that is not enabled does nothing. */
  ghost function Next(s: System, m: Move, codec: Codec): System {
    if !Enabled(s, m) then s
    else System(TablesAfter(s, m, codec), HistoryAfter(s, m), WorkersAfter(s, m, codec), PostsAfter(s, m),
                CreatorsAfter(s, m, codec))
  }

  ghost function Run(s: System, moves: seq<Move>, codec: Codec): System {
    if moves == [] then s
    else Next(Run(s, moves[..|moves| - 1], codec), moves[|moves| - 1], codec)
  }

  /** All callers of one logical request share client, provider and purpose. */
  ghost predicate CallersAgree(workers: map<nat, Worker>) {
    forall v, w :: v in workers && w in workers && Logical(workers[v].caller) == Logical(workers[w].caller) ==>
      CallOf(workers[v].caller, 1) == CallOf(workers[w].caller, 1) &&
        workers[v].caller.client == workers[w].caller.client
  }

  /** Workers at their first statement, over a ledger without calls but with any budgets and operations. */
  ghost predicate Init(s: System, codec: Codec) {
    && s.tables == Replay(s.history, codec.sanitize)
    && s.tables.calls == map[]
    && CallersAgree(s.workers)
    && (forall w :: w in s.workers ==>
          s.workers[w].pc == if s.workers[w].caller.client.Nlu? then Preparing(1) else Starting)
    && s.posts == []
    && s.creators == map[]
  }
}
