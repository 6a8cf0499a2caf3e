/**
 The retrieval gateway's shared fields and the blocks that read and write them. A change token is
 the number of a backend version: every backend write makes a new one.
 */
module RetrievalGateway {
  import opened Wrappers

  datatype Generation = Generation(id: string, revision: nat)

  /**
   What a pin scanned: the active generation and each part of the backend's physical identity. Its digest
   is injective, so it stands for its digest.
   */
  datatype Snapshot = Snapshot(generation: Generation, parts: seq<string>)

  datatype Context = Context(snapshot: Snapshot, status: string, token: Option<nat>)

  datatype Fields = Fields(
    cached: Option<Snapshot>,
    verified: Option<Snapshot>,
    tokens: map<Snapshot, nat>,
    contexts: map<Snapshot, Context>)

  const NEW_FIELDS := Fields(None, None, map[], map[])

  function Lookup<K, V>(m: map<K, V>, k: K): Option<V> {
    if k in m then Some(m[k]) else None
  }

  /** The cached snapshot, if a pin may serve it after verifying it. */
  function CachedFor(f: Fields, active: Generation, force: bool, young: bool): Option<Snapshot> {
    if !force && f.cached.Some? && f.cached.value.generation == active && young then f.cached else None
  }

  function PinStep(f: Fields, snapshot: Snapshot, token: nat): Fields {
    f.(tokens := f.tokens[snapshot := token], cached := Some(snapshot), verified := Some(snapshot))
  }

  datatype Verdict = Changed | Known | Unknown

  /** The block of a verification that compares the token it read: changed, known to be good, or to be scanned. */
  function Compare(f: Fields, snapshot: Snapshot, token: nat, young: bool): Verdict {
    var previous := Lookup(f.tokens, snapshot);
    if previous.Some? && previous.value != token then Changed
    else if f.verified == Some(snapshot) && (previous.Some? || young) then Known
    else Unknown
  }

  function VerifyStep(f: Fields, snapshot: Snapshot, token: nat): Fields {
    f.(tokens := f.tokens[snapshot := token], verified := Some(snapshot))
  }

  function BindStep(f: Fields, context: Context): Fields {
    f.(contexts := f.contexts[context.snapshot := context])
  }

  /** The fields under the identity-cache lock; each method is one block under it. */
  class Gateway {
    var cached: Option<Snapshot>
    var verified: Option<Snapshot>
    var tokens: map<Snapshot, nat>
    var contexts: map<Snapshot, Context>

    constructor ()
      ensures View() == NEW_FIELDS
    {
      cached, verified, tokens, contexts := None, None, map[], map[];
    }

    function View(): Fields
      reads this
    {
      Fields(cached, verified, tokens, contexts)
    }

    method FindCached(active: Generation, force: bool, young: bool) returns (found: Option<Snapshot>)
      ensures found == CachedFor(View(), active, force, young)
    {
      found := None;
      if !force && cached.Some? {
        if cached.value.generation == active && young {
          found := cached;
        }
      }
    }

    method StorePin(snapshot: Snapshot, token: nat)
      modifies this
      ensures View() == PinStep(old(View()), snapshot, token)
    {
      tokens := tokens[snapshot := token];
      cached := Some(snapshot);
      verified := Some(snapshot);
    }

    method CompareToken(snapshot: Snapshot, token: nat, young: bool) returns (verdict: Verdict)
      ensures verdict == Compare(View(), snapshot, token, young)
    {
      var previous := Lookup(tokens, snapshot);
      if previous.Some? && previous.value != token {
        return Changed;
      }
      if verified == Some(snapshot) && (previous.Some? || young) {
        return Known;
      }
      verdict := Unknown;
    }

    method StoreVerified(snapshot: Snapshot, token: nat)
      modifies this
      ensures View() == VerifyStep(old(View()), snapshot, token)
    {
      tokens := tokens[snapshot := token];
      verified := Some(snapshot);
    }

    method Bind(context: Context)
      modifies this
      ensures View() == BindStep(old(View()), context)
    {
      contexts := contexts[context.snapshot := context];
    }
  }
}

/**
 Requests against one gateway while others write to the backend: every read of the backend, every
 token read and every block under the lock is one step, in any interleaving.
 */
module GatewayRuns {
  import opened Wrappers
  import opened RetrievalGateway

  /** The contents of the backend at one version. */
  type Facts = seq<string>

  datatype Query = Query(text: string, topK: int, wantsPassages: bool)

  datatype Hit = Hit(document: string, generation: string)

  /** What the backend answers, and the pure functions of the search. */
  datatype Setting = Setting(
    parts: nat,
    part: (Facts, nat) -> string,
    status: (Generation, Facts) -> string,
    blocked: (string, Query) -> bool,
    documents: (Query, Generation, Facts) -> seq<Hit>,
    passages: (Query, Generation, Facts) -> seq<Hit>,
    fuse: (seq<Hit>, seq<Hit>, int) -> seq<Hit>)

  datatype Job =
    | Pin(force: bool)
    | PinVerified
    | Search(query: Query, given: Option<Snapshot>)

  /** Why a verification runs: for a cached pin, before a search, or after its reads. */
  datatype Stage = ForPin | Before | After(documents: seq<Hit>, passages: seq<Hit>, since: nat, status: string)

  datatype Result =
    | NoGeneration
    | Failed
    | Blocked(snapshot: Snapshot, verified: bool, held: Option<nat>, status: string)
    | PinnedAt(snapshot: Snapshot, at: nat)
    | Verified(context: Context)
    | Evidence(snapshot: Snapshot, ranked: seq<Hit>, passages: seq<Hit>, verified: bool, status: string,
               since: nat, until: nat)

  datatype Pc =
    | Begin
    | Chosen(generation: Generation)
    | Opening(generation: Generation)
    | Scanning(generation: Generation, token: nat, parts: seq<string>)
    | Rechecked(snapshot: Snapshot, token: nat)
    | Verifying(snapshot: Snapshot, stage: Stage)
    | Comparing(snapshot: Snapshot, token: nat, stage: Stage)
    | Rescanning(snapshot: Snapshot, token: nat, count: nat, stage: Stage)
    | Confirmed(snapshot: Snapshot, token: nat, stage: Stage)
    | Pinned(snapshot: Snapshot, at: nat)
    | Inspected(snapshot: Snapshot, status: string)
    | Binding(context: Context)
    | Located(snapshot: Snapshot)
    | Surveying(snapshot: Snapshot, since: nat)
    | Ready(snapshot: Snapshot, verified: bool, held: Option<nat>, status: string)
    | HasDocuments(snapshot: Snapshot, verified: bool, held: Option<nat>, status: string, documents: seq<Hit>)
    | HasPassages(snapshot: Snapshot, verified: bool, held: Option<nat>, status: string, documents: seq<Hit>,
                  passages: seq<Hit>)
    | Done(result: Result)

  /** A request and the version at which it arrived. */
  datatype Request = Request(job: Job, begun: nat, pc: Pc)

  /** The contents at every version so far, the active generation, the gateway's fields and the requests. */
  datatype System = System(history: seq<Facts>, active: Option<Generation>, fields: Fields, requests: seq<Request>)

  datatype Move =
    | Write(facts: Facts)
    | Activate(generation: Option<Generation>)
    | Arrive(job: Job)
    | Advance(request: nat, young: bool)
    | Raise(request: nat)

  function Version(s: System): nat
    requires |s.history| > 0
  {
    |s.history| - 1
  }

  function Now(s: System): Facts
    requires |s.history| > 0
  {
    s.history[|s.history| - 1]
  }

  function AfterVerify(snapshot: Snapshot, token: nat, stage: Stage, job: Job, setting: Setting): Pc {
    match stage
    case ForPin => Pinned(snapshot, token)
    case Before => Surveying(snapshot, token)
    case After(documents, passages, since, status) =>
      Done(if job.Search?
           then Evidence(snapshot, setting.fuse(documents, passages, job.query.topK), passages, false, status, since,
                         token)
           else Failed)
  }

  predicate OfGeneration(hits: seq<Hit>, id: string) {
    forall i :: 0 <= i < |hits| ==> hits[i].generation == id
  }

  /** The step a request takes next. */
  function NextPc(s: System, r: Request, young: bool, setting: Setting): Pc
    requires |s.history| > 0
  {
    match r.pc
    case Begin =>
      if r.job.Search? && r.job.given.Some? then Located(r.job.given.value)
      else if s.active.None? then Done(NoGeneration)
      else Chosen(s.active.value)
    case Chosen(generation) =>
      var cached := CachedFor(s.fields, generation, r.job.Pin? && r.job.force, young);
      if cached.Some? then Verifying(cached.value, ForPin) else Opening(generation)
    case Opening(generation) => Scanning(generation, Version(s), [])
    case Scanning(generation, token, parts) =>
      if |parts| < setting.parts then Scanning(generation, token, parts + [setting.part(Now(s), |parts|)])
      else if token == Version(s) then Rechecked(Snapshot(generation, parts), token)
      else Done(Failed)
    case Rechecked(snapshot, token) => Pinned(snapshot, token)
    case Verifying(snapshot, stage) => Comparing(snapshot, Version(s), stage)
    case Comparing(snapshot, token, stage) =>
      (match Compare(s.fields, snapshot, token, young)
       case Changed => Done(Failed)
       case Known => AfterVerify(snapshot, token, stage, r.job, setting)
       case Unknown => Rescanning(snapshot, token, 0, stage))
    case Rescanning(snapshot, token, count, stage) =>
      if count < |snapshot.parts| then
        if setting.part(Now(s), count) == snapshot.parts[count] then Rescanning(snapshot, token, count + 1, stage)
        else Done(Failed)
      else if token == Version(s) then Confirmed(snapshot, token, stage)
      else Done(Failed)
    case Confirmed(snapshot, token, stage) => AfterVerify(snapshot, token, stage, r.job, setting)
    case Pinned(snapshot, at) =>
      (match r.job
       case Pin(_) => Done(PinnedAt(snapshot, at))
       case PinVerified => Inspected(snapshot, setting.status(snapshot.generation, Now(s)))
       case Search(_, _) => Located(snapshot))
    case Inspected(snapshot, status) => Binding(Context(snapshot, status, Lookup(s.fields.tokens, snapshot)))
    case Binding(context) => Done(Verified(context))
    case Located(snapshot) =>
      var context := Lookup(s.fields.contexts, snapshot);
      if context.Some? then Ready(snapshot, true, context.value.token, context.value.status)
      else Verifying(snapshot, Before)
    case Surveying(snapshot, since) =>
      Ready(snapshot, false, Some(since), setting.status(snapshot.generation, Now(s)))
    case Ready(snapshot, verified, since, status) =>
      if !r.job.Search? then Done(Failed)
      else if setting.blocked(status, r.job.query) then Done(Blocked(snapshot, verified, since, status))
      else HasDocuments(snapshot, verified, since, status, setting.documents(r.job.query, snapshot.generation, Now(s)))
    case HasDocuments(snapshot, verified, since, status, documents) =>
      if !r.job.Search? then Done(Failed)
      else
        var passages := if r.job.query.wantsPassages
                        then setting.passages(r.job.query, snapshot.generation, Now(s)) else [];
        if OfGeneration(documents, snapshot.generation.id) && OfGeneration(passages, snapshot.generation.id)
        then HasPassages(snapshot, verified, since, status, documents, passages)
        else Done(Failed)
    case HasPassages(snapshot, verified, since, status, documents, passages) =>
      if !verified then
        Verifying(snapshot, After(documents, passages, if since.Some? then since.value else Version(s), status))
      else if !r.job.Search? || (since.Some? && since.value != Version(s)) then Done(Failed)
      else Done(Evidence(snapshot, setting.fuse(documents, passages, r.job.query.topK), passages, true, status,
                         if since.Some? then since.value else Version(s), Version(s)))
    case Done(result) => r.pc
  }

  /** The fields after the request's next step. */
  function NextFields(f: Fields, pc: Pc): Fields {
    match pc
    case Rechecked(snapshot, token) => PinStep(f, snapshot, token)
    case Confirmed(snapshot, token, _) => VerifyStep(f, snapshot, token)
    case Binding(context) => BindStep(f, context)
    case _ => f
  }

  function Next(s: System, m: Move, setting: Setting): System
    requires |s.history| > 0
    ensures |Next(s, m, setting).history| > 0
  {
    match m
    case Write(facts) => s.(history := s.history + [facts])
    case Activate(generation) => s.(active := generation)
    case Arrive(job) =>
      if job.Search? && job.given.Some? && |job.given.value.parts| != setting.parts then s
      else s.(requests := s.requests + [Request(job, Version(s), Begin)])
    case Advance(request, young) =>
      if request >= |s.requests| then s
      else
        var r := s.requests[request];
        s.(fields := NextFields(s.fields, r.pc),
           requests := s.requests[request := r.(pc := NextPc(s, r, young, setting))])
    case Raise(request) =>
      if request >= |s.requests| || s.requests[request].pc.Done? then s
      else s.(requests := s.requests[request := s.requests[request].(pc := Done(Failed))])
  }

  function Run(facts: Facts, moves: seq<Move>, setting: Setting): (s: System)
    ensures |s.history| > 0
  {
    if moves == [] then System([facts], None, NEW_FIELDS, [])
    else Next(Run(facts, moves[..|moves| - 1], setting), moves[|moves| - 1], setting)
  }
}
