/** What pins and searches return, whatever other requests and writers do meanwhile. */
module GatewayLaws {
  import opened RetrievalGateway
  import opened GatewayRuns

  /** The snapshot has exactly the identity the backend had at a version. */
  predicate Describes(history: seq<Facts>, version: nat, snapshot: Snapshot, setting: Setting) {
    && version < |history|
    && |snapshot.parts| == setting.parts
    && forall i :: 0 <= i < setting.parts ==> snapshot.parts[i] == setting.part(history[version], i)
  }

  predicate ContextOk(history: seq<Facts>, c: Context, setting: Setting) {
    c.token.Some? && Describes(history, c.token.value, c.snapshot, setting)
  }

  predicate FieldsOk(history: seq<Facts>, f: Fields, setting: Setting) {
    && (forall s :: s in f.tokens ==> Describes(history, f.tokens[s], s, setting))
    && (forall s :: s in f.contexts ==> f.contexts[s].snapshot == s && ContextOk(history, f.contexts[s], setting))
    && (f.cached.Some? ==> f.cached.value in f.tokens)
    && (f.verified.Some? ==> f.verified.value in f.tokens)
  }

  /** Documents read after version `since` and no later than `seen` are those of `since` if the two are the same. */
  predicate DocumentsOk(history: seq<Facts>, q: Query, snapshot: Snapshot, since: nat, seen: nat, documents: seq<Hit>,
                        setting: Setting)
  {
    && Describes(history, since, snapshot, setting)
    && (since == seen ==> documents == setting.documents(q, snapshot.generation, history[since]))
  }

  function PassagesAt(history: seq<Facts>, q: Query, snapshot: Snapshot, version: nat, setting: Setting): seq<Hit>
    requires version < |history|
  {
    if q.wantsPassages then setting.passages(q, snapshot.generation, history[version]) else []
  }

  predicate HitsOk(history: seq<Facts>, q: Query, snapshot: Snapshot, since: nat, seen: nat,
                   documents: seq<Hit>, passages: seq<Hit>, setting: Setting)
  {
    && DocumentsOk(history, q, snapshot, since, seen, documents, setting)
    && (since == seen ==> passages == PassagesAt(history, q, snapshot, since, setting))
    && OfGeneration(documents, snapshot.generation.id)
    && OfGeneration(passages, snapshot.generation.id)
  }

  predicate StageOk(history: seq<Facts>, job: Job, snapshot: Snapshot, stage: Stage, seen: nat, setting: Setting) {
    && |snapshot.parts| == setting.parts
    && (stage.After? ==>
          && job.Search? && stage.since <= seen
          && HitsOk(history, job.query, snapshot, stage.since, seen, stage.documents, stage.passages, setting))
  }

  /** Everything a search returned was computed from the backend at version `v`. */
  predicate ComputedAt(history: seq<Facts>, q: Query, e: Result, v: nat, setting: Setting)
    requires e.Evidence?
  {
    && v < |history|
    && var documents := setting.documents(q, e.snapshot.generation, history[v]);
       && OfGeneration(documents, e.snapshot.generation.id)
       && e.passages == PassagesAt(history, q, e.snapshot, v, setting)
       && e.ranked == setting.fuse(documents, e.passages, q.topK)
  }

  predicate ResultOk(history: seq<Facts>, r: Request, result: Result, setting: Setting) {
    match result
    case PinnedAt(snapshot, at) => r.begun <= at && Describes(history, at, snapshot, setting)
    case Verified(context) => context.token.Some? && Describes(history, context.token.value, context.snapshot, setting)
    case Evidence(snapshot, _, passages, verified, _, since, until) =>
      && r.job.Search?
      && since <= until && r.begun <= until
      && Describes(history, since, snapshot, setting)
      && Describes(history, until, snapshot, setting)
      && OfGeneration(passages, snapshot.generation.id)
      && (verified ==> since == until)
      && (since == until ==> ComputedAt(history, r.job.query, result, since, setting))
    case _ => true
  }

  predicate RequestOk(history: seq<Facts>, f: Fields, r: Request, setting: Setting)
  {
    && r.begun < |history|
    && match r.pc
       case Begin => r.job.Search? && r.job.given.Some? ==> |r.job.given.value.parts| == setting.parts
       case Scanning(_, token, parts) =>
         && r.begun <= token < |history| && |parts| <= setting.parts
         && (token == |history| - 1 ==> forall i :: 0 <= i < |parts| ==> parts[i] == setting.part(history[token], i))
       case Rechecked(snapshot, token) => r.begun <= token && Describes(history, token, snapshot, setting)
       case Verifying(snapshot, stage) => StageOk(history, r.job, snapshot, stage, |history| - 1, setting)
       case Comparing(snapshot, token, stage) =>
         r.begun <= token < |history| && StageOk(history, r.job, snapshot, stage, token, setting)
       case Rescanning(snapshot, token, count, stage) =>
         && r.begun <= token < |history| && count <= setting.parts
         && StageOk(history, r.job, snapshot, stage, token, setting)
         && (token == |history| - 1 ==>
               forall i :: 0 <= i < count ==> snapshot.parts[i] == setting.part(history[token], i))
       case Confirmed(snapshot, token, stage) =>
         r.begun <= token && Describes(history, token, snapshot, setting) &&
           StageOk(history, r.job, snapshot, stage, token, setting)
       case Pinned(snapshot, at) => r.begun <= at && snapshot in f.tokens && Describes(history, at, snapshot, setting)
       case Inspected(snapshot, _) => snapshot in f.tokens
       case Binding(context) => ContextOk(history, context, setting)
       case Located(snapshot) => |snapshot.parts| == setting.parts
       case Surveying(snapshot, since) => Describes(history, since, snapshot, setting)
       case Ready(snapshot, _, since, _) => since.Some? && Describes(history, since.value, snapshot, setting)
       case HasDocuments(snapshot, _, since, _, documents) =>
         r.job.Search? && since.Some? &&
           DocumentsOk(history, r.job.query, snapshot, since.value, |history| - 1, documents, setting)
       case HasPassages(snapshot, _, since, _, documents, passages) =>
         r.job.Search? && since.Some? &&
           HitsOk(history, r.job.query, snapshot, since.value, |history| - 1, documents, passages, setting)
       case Done(result) => ResultOk(history, r, result, setting)
       case _ => true
  }

  ghost predicate Inv(s: System, setting: Setting) {
    && |s.history| > 0
    && FieldsOk(s.history, s.fields, setting)
    && forall i :: 0 <= i < |s.requests| ==> RequestOk(s.history, s.fields, s.requests[i], setting)
  }

  // ----- Preservation -----

  lemma WriteKeeps(s: System, facts: Facts, r: Request, setting: Setting)
    requires |s.history| > 0 && FieldsOk(s.history, s.fields, setting)
    requires RequestOk(s.history, s.fields, r, setting)
    ensures RequestOk(s.history + [facts], s.fields, r, setting)
  {
  }

  lemma WriteKeepsFields(s: System, facts: Facts, setting: Setting)
    requires |s.history| > 0 && FieldsOk(s.history, s.fields, setting)
    ensures FieldsOk(s.history + [facts], s.fields, setting)
  {
  }

  lemma StepFields(s: System, r: Request, young: bool, setting: Setting)
    requires |s.history| > 0 && FieldsOk(s.history, s.fields, setting) && RequestOk(s.history, s.fields, r, setting)
    ensures FieldsOk(s.history, NextFields(s.fields, r.pc), setting)
    ensures forall t :: t in s.fields.tokens ==> t in NextFields(s.fields, r.pc).tokens
  {
  }

  lemma StepPin(s: System, r: Request, young: bool, setting: Setting)
    requires |s.history| > 0 && FieldsOk(s.history, s.fields, setting) && RequestOk(s.history, s.fields, r, setting)
    requires r.pc.Begin? || r.pc.Chosen? || r.pc.Opening? || r.pc.Scanning? || r.pc.Rechecked?
    ensures RequestOk(s.history, NextFields(s.fields, r.pc), r.(pc := NextPc(s, r, young, setting)), setting)
  {
  }

  lemma StepCompare(s: System, r: Request, young: bool, setting: Setting)
    requires |s.history| > 0 && FieldsOk(s.history, s.fields, setting) && RequestOk(s.history, s.fields, r, setting)
    requires r.pc.Verifying? || r.pc.Comparing?
    ensures RequestOk(s.history, NextFields(s.fields, r.pc), r.(pc := NextPc(s, r, young, setting)), setting)
  {
  }

  lemma StepRescan(s: System, r: Request, young: bool, setting: Setting)
    requires |s.history| > 0 && FieldsOk(s.history, s.fields, setting) && RequestOk(s.history, s.fields, r, setting)
    requires r.pc.Rescanning? || r.pc.Confirmed?
    ensures RequestOk(s.history, NextFields(s.fields, r.pc), r.(pc := NextPc(s, r, young, setting)), setting)
  {
  }

  lemma StepContext(s: System, r: Request, young: bool, setting: Setting)
    requires |s.history| > 0 && FieldsOk(s.history, s.fields, setting) && RequestOk(s.history, s.fields, r, setting)
    requires r.pc.Pinned? || r.pc.Inspected? || r.pc.Binding? || r.pc.Located? || r.pc.Surveying?
    ensures RequestOk(s.history, NextFields(s.fields, r.pc), r.(pc := NextPc(s, r, young, setting)), setting)
  {
  }

  lemma StepSearch(s: System, r: Request, young: bool, setting: Setting)
    requires |s.history| > 0 && FieldsOk(s.history, s.fields, setting) && RequestOk(s.history, s.fields, r, setting)
    requires r.pc.Ready? || r.pc.HasDocuments?
    ensures RequestOk(s.history, NextFields(s.fields, r.pc), r.(pc := NextPc(s, r, young, setting)), setting)
  {
  }

  lemma StepFinish(s: System, r: Request, young: bool, setting: Setting)
    requires |s.history| > 0 && FieldsOk(s.history, s.fields, setting) && RequestOk(s.history, s.fields, r, setting)
    requires r.pc.HasPassages? || r.pc.Done?
    ensures RequestOk(s.history, NextFields(s.fields, r.pc), r.(pc := NextPc(s, r, young, setting)), setting)
  {
  }

  lemma StepOther(history: seq<Facts>, f: Fields, g: Fields, r: Request, setting: Setting)
    requires RequestOk(history, f, r, setting)
    requires forall t :: t in f.tokens ==> t in g.tokens
    ensures RequestOk(history, g, r, setting)
  {
  }

  lemma StepOwn(s: System, r: Request, young: bool, setting: Setting)
    requires |s.history| > 0 && FieldsOk(s.history, s.fields, setting) && RequestOk(s.history, s.fields, r, setting)
    ensures RequestOk(s.history, NextFields(s.fields, r.pc), r.(pc := NextPc(s, r, young, setting)), setting)
  {
    if r.pc.Begin? || r.pc.Chosen? || r.pc.Opening? || r.pc.Scanning? || r.pc.Rechecked? {
      StepPin(s, r, young, setting);
    } else if r.pc.Verifying? || r.pc.Comparing? {
      StepCompare(s, r, young, setting);
    } else if r.pc.Rescanning? || r.pc.Confirmed? {
      StepRescan(s, r, young, setting);
    } else if r.pc.Ready? || r.pc.HasDocuments? {
      StepSearch(s, r, young, setting);
    } else if r.pc.HasPassages? || r.pc.Done? {
      StepFinish(s, r, young, setting);
    } else {
      StepContext(s, r, young, setting);
    }
  }

  lemma AdvanceKeeps(s: System, k: nat, young: bool, setting: Setting)
    requires Inv(s, setting) && k < |s.requests|
    ensures Inv(Next(s, Advance(k, young), setting), setting)
  {
    var t, r := Next(s, Advance(k, young), setting), s.requests[k];
    StepFields(s, r, young, setting);
    StepOwn(s, r, young, setting);
    forall i | 0 <= i < |s.requests| && i != k
      ensures RequestOk(t.history, t.fields, t.requests[i], setting)
    {
      StepOther(s.history, s.fields, t.fields, s.requests[i], setting);
    }
  }

  lemma WriteKeepsAll(s: System, facts: Facts, setting: Setting)
    requires Inv(s, setting)
    ensures Inv(s.(history := s.history + [facts]), setting)
  {
    WriteKeepsFields(s, facts, setting);
    forall i | 0 <= i < |s.requests|
      ensures RequestOk(s.history + [facts], s.fields, s.requests[i], setting)
    {
      WriteKeeps(s, facts, s.requests[i], setting);
    }
  }

  lemma {:induction false} StepKeeps(s: System, m: Move, setting: Setting)
    requires Inv(s, setting)
    ensures Inv(Next(s, m, setting), setting)
  {
    match m
    case Write(facts) => WriteKeepsAll(s, facts, setting);
    case Advance(k, young) =>
      if k < |s.requests| {
        AdvanceKeeps(s, k, young, setting);
      }
    case _ =>
  }

  lemma {:induction false} Invariant(facts: Facts, moves: seq<Move>, setting: Setting)
    ensures Inv(Run(facts, moves, setting), setting)
  {
    if moves == [] {
    } else {
      Invariant(facts, moves[..|moves| - 1], setting);
      StepKeeps(Run(facts, moves[..|moves| - 1], setting), moves[|moves| - 1], setting);
    }
  }

  // ----- Laws -----

  /**
   However writers interleave with its scan, the snapshot a pin returns has in every part the identity
   the backend had at one version, a version from the time of the call.
   */
  lemma PinSeesOneVersion(facts: Facts, moves: seq<Move>, setting: Setting, k: nat)
    requires var s := Run(facts, moves, setting);
             k < |s.requests| && s.requests[k].pc.Done? && s.requests[k].pc.result.PinnedAt?
    ensures var s := Run(facts, moves, setting);
            var result := s.requests[k].pc.result;
            s.requests[k].begun <= result.at < |s.history| && Describes(s.history, result.at, result.snapshot, setting)
  {
    Invariant(facts, moves, setting);
    var s := Run(facts, moves, setting);
    assert RequestOk(s.history, s.fields, s.requests[k], setting);
  }

  /**
   Every stored token, and the token of every verified context, is a version whose identity
   the snapshot describes.
   */
  lemma TokensDescribe(facts: Facts, moves: seq<Move>, setting: Setting, snapshot: Snapshot)
    ensures var s := Run(facts, moves, setting);
            && (snapshot in s.fields.tokens ==> Describes(s.history, s.fields.tokens[snapshot], snapshot, setting))
            && (snapshot in s.fields.contexts ==>
                  var token := s.fields.contexts[snapshot].token;
                  token.Some? && Describes(s.history, token.value, snapshot, setting))
  {
    Invariant(facts, moves, setting);
  }

  /**
   A search with a verified context that returns evidence computed all of it from the backend at one
   version, whose identity is the snapshot's; the backend was at that version when the search ended.
   */
  lemma VerifiedSearchSeesOneVersion(facts: Facts, moves: seq<Move>, setting: Setting, k: nat)
    requires var s := Run(facts, moves, setting);
             k < |s.requests| && s.requests[k].pc.Done? && s.requests[k].pc.result.Evidence? &&
               s.requests[k].pc.result.verified
    ensures var s := Run(facts, moves, setting);
            var r := s.requests[k];
            var v := r.pc.result.until;
            && r.begun <= v < |s.history| && r.job.Search?
            && Describes(s.history, v, r.pc.result.snapshot, setting)
            && ComputedAt(s.history, r.job.query, r.pc.result, v, setting)
  {
    Invariant(facts, moves, setting);
    var s := Run(facts, moves, setting);
    assert RequestOk(s.history, s.fields, s.requests[k], setting);
  }

  /**
   Without a context the backend had the snapshot's identity at both verifications; the evidence is
   that of one version if both saw the same token.
   */
  lemma UnverifiedSearch(facts: Facts, moves: seq<Move>, setting: Setting, k: nat)
    requires var s := Run(facts, moves, setting);
             k < |s.requests| && s.requests[k].pc.Done? && s.requests[k].pc.result.Evidence?
    ensures var s := Run(facts, moves, setting);
            var r := s.requests[k];
            var e := r.pc.result;
            && e.since <= e.until < |s.history| && r.job.Search?
            && Describes(s.history, e.since, e.snapshot, setting)
            && Describes(s.history, e.until, e.snapshot, setting)
            && (e.since == e.until ==> ComputedAt(s.history, r.job.query, e, e.since, setting))
  {
    Invariant(facts, moves, setting);
    var s := Run(facts, moves, setting);
    assert RequestOk(s.history, s.fields, s.requests[k], setting);
  }
}
