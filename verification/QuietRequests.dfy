/**
 What requests come to when nobody disturbs them: the laws for interleaved requests say what they never
 return, these say what they do return.
 */
module QuietRequests {
  import opened Wrappers
  import opened RetrievalGateway
  import opened GatewayRuns
  import opened GatewayLaws

  /** A request on its way: its program counter and the gateway's fields. */
  datatype Way = Way(fields: Fields, pc: Pc)

  /** The system in which request `k` stands there, and everything else as in `s`. */
  function At(s: System, k: nat, way: Way): System
    requires k < |s.requests|
  {
    s.(fields := way.fields, requests := s.requests[k := s.requests[k].(pc := way.pc)])
  }

  function Onward(s: System, k: nat, way: Way, young: bool, setting: Setting): Way
    requires k < |s.requests| && |s.history| > 0
  {
    Way(NextFields(way.fields, way.pc), NextPc(At(s, k, way), s.requests[k].(pc := way.pc), young, setting))
  }

  function Walk(s: System, k: nat, way: Way, young: bool, setting: Setting, n: nat): Way
    requires k < |s.requests| && |s.history| > 0
    decreases n
  {
    if n == 0 then way else Walk(s, k, Onward(s, k, way, young, setting), young, setting, n - 1)
  }

  function Advances(k: nat, young: bool, n: nat): seq<Move> {
    seq(n, i => Advance(k, young))
  }

  /** The system after `moves` moves from `s`. */
  function RunFrom(s: System, moves: seq<Move>, setting: Setting): (t: System)
    requires |s.history| > 0
    ensures |t.history| > 0
    decreases |moves|
  {
    if moves == [] then s else RunFrom(Next(s, moves[0], setting), moves[1..], setting)
  }

  /** A walk is what the system does when only the request moves. */
  lemma {:induction false} WalkIsRun(s: System, k: nat, way: Way, young: bool, setting: Setting, n: nat)
    requires k < |s.requests| && |s.history| > 0
    ensures RunFrom(At(s, k, way), Advances(k, young, n), setting) == At(s, k, Walk(s, k, way, young, setting, n))
    decreases n
  {
    if n == 0 {
    } else {
      var onward := Onward(s, k, way, young, setting);
      assert At(s, k, way).requests[k := s.requests[k].(pc := onward.pc)] == At(s, k, onward).requests;
      assert Next(At(s, k, way), Advance(k, young), setting) == At(s, k, onward);
      assert Advances(k, young, n)[1..] == Advances(k, young, n - 1);
      WalkIsRun(s, k, onward, young, setting, n - 1);
    }
  }

  lemma {:induction false} WalkOn(s: System, k: nat, way: Way, young: bool, setting: Setting, m: nat, n: nat)
    requires k < |s.requests| && |s.history| > 0
    ensures Walk(s, k, way, young, setting, m + n) ==
            Walk(s, k, Walk(s, k, way, young, setting, m), young, setting, n)
    decreases m
  {
    if m == 0 {
    } else {
      WalkOn(s, k, Onward(s, k, way, young, setting), young, setting, m - 1, n);
    }
  }

  /** Undisturbed, the request comes from the first place to the second. */
  ghost predicate Comes(s: System, k: nat, from: Way, to: Way, young: bool, setting: Setting)
    requires k < |s.requests| && |s.history| > 0
  {
    exists n: nat :: Walk(s, k, from, young, setting, n) == to
  }

  lemma Then(s: System, k: nat, a: Way, b: Way, c: Way, young: bool, setting: Setting)
    requires k < |s.requests| && |s.history| > 0
    requires Comes(s, k, a, b, young, setting) && Comes(s, k, b, c, young, setting)
    ensures Comes(s, k, a, c, young, setting)
  {
    var m: nat :| Walk(s, k, a, young, setting, m) == b;
    var n: nat :| Walk(s, k, b, young, setting, n) == c;
    WalkOn(s, k, a, young, setting, m, n);
    assert Walk(s, k, a, young, setting, m + n) == c;
  }

  lemma Step(s: System, k: nat, way: Way, young: bool, setting: Setting)
    requires k < |s.requests| && |s.history| > 0
    ensures Comes(s, k, way, Onward(s, k, way, young, setting), young, setting)
  {
    var onward := Onward(s, k, way, young, setting);
    assert Walk(s, k, onward, young, setting, 0) == onward;
    assert Walk(s, k, way, young, setting, 1) == onward;
  }

  lemma StepThen(s: System, k: nat, a: Way, c: Way, young: bool, setting: Setting)
    requires k < |s.requests| && |s.history| > 0
    requires Comes(s, k, Onward(s, k, a, young, setting), c, young, setting)
    ensures Comes(s, k, a, c, young, setting)
  {
    Step(s, k, a, young, setting);
    Then(s, k, a, Onward(s, k, a, young, setting), c, young, setting);
  }

  lemma Here(s: System, k: nat, way: Way, young: bool, setting: Setting)
    requires k < |s.requests| && |s.history| > 0
    ensures Comes(s, k, way, way, young, setting)
  {
    assert Walk(s, k, way, young, setting, 0) == way;
  }

  /**
   What the other moves do: a write makes one version, an activation names a generation, an arrival adds a
   request at its start, and a request that raises ends without a result unless it has one.
   */
  lemma MovesDecide(s: System, m: Move, setting: Setting)
    requires |s.history| > 0 && !m.Advance?
    ensures var t := Next(s, m, setting);
            match m
            case Write(facts) => t == s.(history := s.history + [facts])
            case Activate(generation) => t == s.(active := generation)
            case Arrive(job) =>
              t == s || t == s.(requests := s.requests + [Request(job, |s.history| - 1, Begin)])
            case Raise(k) =>
              && t == s.(requests := t.requests) && |t.requests| == |s.requests|
              && (forall i :: 0 <= i < |t.requests| && i != k ==> t.requests[i] == s.requests[i])
              && (k < |s.requests| ==>
                    && t.requests[k].job == s.requests[k].job && t.requests[k].begun == s.requests[k].begun
                    && t.requests[k].pc == if s.requests[k].pc.Done? then s.requests[k].pc else Done(Failed))
            case Advance(_, _) => true
    ensures m.Arrive? ==>
              (Next(s, m, setting) == s <==>
                 m.job.Search? && m.job.given.Some? && |m.job.given.value.parts| != setting.parts)
  {
    if m.Arrive? {
      assert |s.requests + [Request(m.job, |s.history| - 1, Begin)]| == |s.requests| + 1;
    }
  }

  // ----- Pinning -----

  /** The parts of the identity of the current contents, up to the n-th. */
  function PartsNow(s: System, n: nat, setting: Setting): seq<string>
    requires |s.history| > 0
  {
    seq(n, i requires 0 <= i < n => setting.part(s.history[|s.history| - 1], i))
  }

  function SnapshotNow(s: System, generation: Generation, setting: Setting): Snapshot
    requires |s.history| > 0
  {
    Snapshot(generation, PartsNow(s, setting.parts, setting))
  }

  lemma {:induction false} Scans(s: System, k: nat, f: Fields, generation: Generation, n: nat, young: bool,
                                 setting: Setting)
    requires k < |s.requests| && |s.history| > 0 && n <= setting.parts
    ensures var token := |s.history| - 1;
            Comes(s, k, Way(f, Scanning(generation, token, PartsNow(s, n, setting))),
                  Way(f, Rechecked(SnapshotNow(s, generation, setting), token)), young, setting)
    decreases setting.parts - n
  {
    var token := |s.history| - 1;
    var here := Way(f, Scanning(generation, token, PartsNow(s, n, setting)));
    if n == setting.parts {
      Here(s, k, Way(f, Rechecked(SnapshotNow(s, generation, setting), token)), young, setting);
    } else {
      Scans(s, k, f, generation, n + 1, young, setting);
      assert PartsNow(s, n, setting) + [setting.part(s.history[token], n)] == PartsNow(s, n + 1, setting);
    }
    StepThen(s, k, here, Way(f, Rechecked(SnapshotNow(s, generation, setting), token)), young, setting);
  }

  /** The fields with the snapshot's token, as the cached and verified one. */
  function Remembering(f: Fields, snapshot: Snapshot, token: nat): Fields {
    Fields(Some(snapshot), Some(snapshot), f.tokens[snapshot := token], f.contexts)
  }

  /** A request that has to scan gets the snapshot of the current contents and remembers it. */
  lemma ScanPins(s: System, k: nat, f: Fields, generation: Generation, young: bool, setting: Setting)
    requires k < |s.requests| && |s.history| > 0
    ensures var snapshot, token := SnapshotNow(s, generation, setting), |s.history| - 1;
            Comes(s, k, Way(f, Opening(generation)), Way(Remembering(f, snapshot, token), Pinned(snapshot, token)),
                  young, setting)
  {
    var snapshot, token := SnapshotNow(s, generation, setting), |s.history| - 1;
    var end := Way(Remembering(f, snapshot, token), Pinned(snapshot, token));
    Scans(s, k, f, generation, 0, young, setting);
    Here(s, k, end, young, setting);
    StepThen(s, k, Way(f, Rechecked(snapshot, token)), end, young, setting);
    Then(s, k, Way(f, Scanning(generation, token, [])), Way(f, Rechecked(snapshot, token)), end, young, setting);
    StepThen(s, k, Way(f, Opening(generation)), end, young, setting);
  }

  // ----- Verifying -----

  /** The snapshot is the one verified last, and its token is stored or it is young enough. */
  predicate TakenForGood(f: Fields, snapshot: Snapshot, young: bool) {
    f.verified.Some? && f.verified.value == snapshot && (young || snapshot in f.tokens)
  }

  /** The contents have changed since the snapshot's token was stored. */
  predicate KnownChanged(f: Fields, snapshot: Snapshot, version: nat) {
    snapshot in f.tokens && f.tokens[snapshot] != version
  }

  /** Where a request goes once its snapshot is verified at a version. */
  function Onto(snapshot: Snapshot, version: nat, stage: Stage, job: Job, setting: Setting): Pc {
    if stage.ForPin? then Pinned(snapshot, version)
    else if stage.Before? then Surveying(snapshot, version)
    else if job.Search? then
      Done(Evidence(snapshot, setting.fuse(stage.documents, stage.passages, job.query.topK), stage.passages, false,
                    stage.status, stage.since, version))
    else Done(Failed)
  }

  lemma {:induction false} Rescans(s: System, k: nat, f: Fields, snapshot: Snapshot, stage: Stage, n: nat, young: bool,
                                   setting: Setting)
    requires k < |s.requests| && |s.history| > 0 && n <= |snapshot.parts|
    ensures var token := |s.history| - 1;
            Comes(s, k, Way(f, Rescanning(snapshot, token, n, stage)),
                  Way(f, if forall i :: n <= i < |snapshot.parts| ==>
                              setting.part(s.history[|s.history| - 1], i) == snapshot.parts[i]
                         then Confirmed(snapshot, token, stage) else Done(Failed)), young, setting)
    decreases |snapshot.parts| - n
  {
    var token := |s.history| - 1;
    var good := forall i :: n <= i < |snapshot.parts| ==> setting.part(s.history[token], i) == snapshot.parts[i];
    var end := Way(f, if good then Confirmed(snapshot, token, stage) else Done(Failed));
    if n < |snapshot.parts| && setting.part(s.history[token], n) == snapshot.parts[n] {
      Rescans(s, k, f, snapshot, stage, n + 1, young, setting);
    } else {
      Here(s, k, end, young, setting);
    }
    StepThen(s, k, Way(f, Rescanning(snapshot, token, n, stage)), end, young, setting);
  }

  /**
   A verification fails if the stored token is another one, or if it has to scan and finds another identity;
   else the request goes on, a scan having stored the token.
   */
  lemma VerifyDecides(s: System, k: nat, f: Fields, snapshot: Snapshot, stage: Stage, young: bool, setting: Setting)
    requires k < |s.requests| && |s.history| > 0
    ensures var version := |s.history| - 1;
            var same := forall i :: 0 <= i < |snapshot.parts| ==>
                          setting.part(s.history[|s.history| - 1], i) == snapshot.parts[i];
            var onto := Onto(snapshot, version, stage, s.requests[k].job, setting);
            Comes(s, k, Way(f, Verifying(snapshot, stage)),
                  if KnownChanged(f, snapshot, version) then Way(f, Done(Failed))
                  else if TakenForGood(f, snapshot, young) then Way(f, onto)
                  else if same then Way(f.(tokens := f.tokens[snapshot := version], verified := Some(snapshot)), onto)
                  else Way(f, Done(Failed)), young, setting)
  {
    var version := |s.history| - 1;
    var onto := Onto(snapshot, version, stage, s.requests[k].job, setting);
    var comparing := Way(f, Comparing(snapshot, version, stage));
    if KnownChanged(f, snapshot, version) {
      Step(s, k, comparing, young, setting);
    } else if TakenForGood(f, snapshot, young) {
      Step(s, k, comparing, young, setting);
    } else {
      ScanDecides(s, k, f, snapshot, stage, young, setting);
      StepThen(s, k, comparing, Scanned(s, k, f, snapshot, stage, setting), young, setting);
    }
    Step(s, k, Way(f, Verifying(snapshot, stage)), young, setting);
    var end := if KnownChanged(f, snapshot, version) then Way(f, Done(Failed))
               else if TakenForGood(f, snapshot, young) then Way(f, onto)
               else Scanned(s, k, f, snapshot, stage, setting);
    Then(s, k, Way(f, Verifying(snapshot, stage)), comparing, end, young, setting);
  }

  /** Where a scan of the current contents leaves the request. */
  function Scanned(s: System, k: nat, f: Fields, snapshot: Snapshot, stage: Stage, setting: Setting): Way
    requires k < |s.requests| && |s.history| > 0
  {
    var version := |s.history| - 1;
    if forall i :: 0 <= i < |snapshot.parts| ==> setting.part(s.history[|s.history| - 1], i) == snapshot.parts[i] then
      Way(f.(tokens := f.tokens[snapshot := version], verified := Some(snapshot)),
          Onto(snapshot, version, stage, s.requests[k].job, setting))
    else Way(f, Done(Failed))
  }

  lemma ScanDecides(s: System, k: nat, f: Fields, snapshot: Snapshot, stage: Stage, young: bool, setting: Setting)
    requires k < |s.requests| && |s.history| > 0
    ensures Comes(s, k, Way(f, Rescanning(snapshot, |s.history| - 1, 0, stage)),
                  Scanned(s, k, f, snapshot, stage, setting), young, setting)
  {
    var version := |s.history| - 1;
    var end := Scanned(s, k, f, snapshot, stage, setting);
    Rescans(s, k, f, snapshot, stage, 0, young, setting);
    if forall i :: 0 <= i < |snapshot.parts| ==> setting.part(s.history[|s.history| - 1], i) == snapshot.parts[i] {
      var confirmed := Way(f, Confirmed(snapshot, version, stage));
      Step(s, k, confirmed, young, setting);
      Then(s, k, Way(f, Rescanning(snapshot, version, 0, stage)), confirmed, end, young, setting);
    }
  }

  // ----- Arriving -----

  /** A search that brings a snapshot goes straight to it; any other request starts from the active generation. */
  lemma BeginDecides(s: System, k: nat, f: Fields, young: bool, setting: Setting)
    requires k < |s.requests| && |s.history| > 0
    ensures var job := s.requests[k].job;
            Comes(s, k, Way(f, Begin),
                  Way(f, if job.Search? && job.given.Some? then Located(job.given.value)
                         else match s.active { case None => Done(NoGeneration) case Some(g) => Chosen(g) }),
                  young, setting)
  {
    Step(s, k, Way(f, Begin), young, setting);
  }

  /**
   The cached snapshot is verified again if it is young, of this generation, and no pin
   forces a new one; else a scan begins.
   */
  lemma ChosenDecides(s: System, k: nat, f: Fields, generation: Generation, young: bool, setting: Setting)
    requires k < |s.requests| && |s.history| > 0
    ensures var forced := s.requests[k].job.Pin? && s.requests[k].job.force;
            Comes(s, k, Way(f, Chosen(generation)),
                  Way(f, match f.cached
                         case Some(cached) =>
                           if young && !forced && cached.generation == generation then Verifying(cached, ForPin)
                           else Opening(generation)
                         case None => Opening(generation)), young, setting)
  {
    Step(s, k, Way(f, Chosen(generation)), young, setting);
  }

  /** A pin returns its snapshot; a verified pin returns it with the status and token, and keeps that as the context. */
  lemma PinnedDecides(s: System, k: nat, f: Fields, snapshot: Snapshot, at: nat, young: bool, setting: Setting)
    requires k < |s.requests| && |s.history| > 0
    ensures var job := s.requests[k].job;
            var status := setting.status(snapshot.generation, s.history[|s.history| - 1]);
            var context := Context(snapshot, status, if snapshot in f.tokens then Some(f.tokens[snapshot]) else None);
            Comes(s, k, Way(f, Pinned(snapshot, at)),
                  if job.Search? then Way(f, Located(snapshot))
                  else if job.Pin? then Way(f, Done(PinnedAt(snapshot, at)))
                  else Way(f.(contexts := f.contexts[snapshot := context]), Done(Verified(context))), young, setting)
  {
    var status := setting.status(snapshot.generation, s.history[|s.history| - 1]);
    var context := Context(snapshot, status, if snapshot in f.tokens then Some(f.tokens[snapshot]) else None);
    var end := Way(f.(contexts := f.contexts[snapshot := context]), Done(Verified(context)));
    if s.requests[k].job.PinVerified? {
      Here(s, k, end, young, setting);
      StepThen(s, k, Way(f, Binding(context)), end, young, setting);
      StepThen(s, k, Way(f, Inspected(snapshot, status)), end, young, setting);
      StepThen(s, k, Way(f, Pinned(snapshot, at)), end, young, setting);
    } else {
      Step(s, k, Way(f, Pinned(snapshot, at)), young, setting);
    }
  }

  // ----- Searching -----

  /** What a search past its preflight finds in the current contents. */
  function DocumentsNow(s: System, q: Query, snapshot: Snapshot, setting: Setting): seq<Hit>
    requires |s.history| > 0
  {
    setting.documents(q, snapshot.generation, s.history[|s.history| - 1])
  }

  function PassagesNow(s: System, q: Query, snapshot: Snapshot, setting: Setting): seq<Hit>
    requires |s.history| > 0
  {
    if q.wantsPassages then setting.passages(q, snapshot.generation, s.history[|s.history| - 1]) else []
  }

  /** All hits are of the snapshot's generation. */
  predicate InGeneration(hits: seq<Hit>, snapshot: Snapshot) {
    forall h :: h in hits ==> h.generation == snapshot.generation.id
  }

  lemma InGenerationIff(hits: seq<Hit>, snapshot: Snapshot)
    ensures OfGeneration(hits, snapshot.generation.id) <==> InGeneration(hits, snapshot)
  {
    if OfGeneration(hits, snapshot.generation.id) {
      assert InGeneration(hits, snapshot);
    } else {
      var i :| 0 <= i < |hits| && hits[i].generation != snapshot.generation.id;
      assert hits[i] in hits;
    }
  }

  /** From its preflight on a search is blocked, or finds hits that are all of its generation, or fails. */
  lemma ReadyDecides(s: System, k: nat, f: Fields, snapshot: Snapshot, verified: bool, held: Option<nat>,
                     status: string,
                     young: bool, setting: Setting)
    requires k < |s.requests| && |s.history| > 0 && s.requests[k].job.Search?
    ensures var q := s.requests[k].job.query;
            var documents, passages := DocumentsNow(s, q, snapshot, setting), PassagesNow(s, q, snapshot, setting);
            Comes(s, k, Way(f, Ready(snapshot, verified, held, status)),
                  Way(f, if setting.blocked(status, q) then Done(Blocked(snapshot, verified, held, status))
                         else if InGeneration(documents, snapshot) && InGeneration(passages, snapshot)
                         then HasPassages(snapshot, verified, held, status, documents, passages)
                         else Done(Failed)), young, setting)
  {
    var q := s.requests[k].job.query;
    var documents, passages := DocumentsNow(s, q, snapshot, setting), PassagesNow(s, q, snapshot, setting);
    InGenerationIff(documents, snapshot);
    InGenerationIff(passages, snapshot);
    var here := Way(f, Ready(snapshot, verified, held, status));
    var found := Way(f, HasDocuments(snapshot, verified, held, status, documents));
    Step(s, k, here, young, setting);
    if !setting.blocked(status, q) {
      Step(s, k, found, young, setting);
      Then(s, k, here, found, Onward(s, k, found, young, setting), young, setting);
    }
  }

  /**
   With a context, hits are returned as evidence exactly if the contents are still those of
   its token, if it has one.
   */
  lemma VerifiedEnd(s: System, k: nat, f: Fields, snapshot: Snapshot, held: Option<nat>, status: string,
                    documents: seq<Hit>, passages: seq<Hit>, young: bool, setting: Setting)
    requires k < |s.requests| && |s.history| > 0 && s.requests[k].job.Search?
    ensures var version, ranked := |s.history| - 1, setting.fuse(documents, passages, s.requests[k].job.query.topK);
            Comes(s, k, Way(f, HasPassages(snapshot, true, held, status, documents, passages)),
                  Way(f, if held == None || held == Some(version)
                         then Done(Evidence(snapshot, ranked, passages, true, status, version, version))
                         else Done(Failed)), young, setting)
  {
    Step(s, k, Way(f, HasPassages(snapshot, true, held, status, documents, passages)), young, setting);
  }

  /** A snapshot with a context is searched under it; one without is verified and its status read first. */
  lemma LocatedDecides(s: System, k: nat, f: Fields, snapshot: Snapshot, young: bool, setting: Setting)
    requires k < |s.requests| && |s.history| > 0
    ensures Comes(s, k, Way(f, Located(snapshot)),
                  Way(f, if snapshot in f.contexts
                         then Ready(snapshot, true, f.contexts[snapshot].token, f.contexts[snapshot].status)
                         else Verifying(snapshot, Before)), young, setting)
    ensures forall since ::
              Comes(s, k, Way(f, Surveying(snapshot, since)),
                    Way(f, Ready(snapshot, false, Some(since),
                                 setting.status(snapshot.generation, s.history[|s.history| - 1]))), young, setting)
  {
    Step(s, k, Way(f, Located(snapshot)), young, setting);
    forall since
      ensures Comes(s, k, Way(f, Surveying(snapshot, since)),
                    Way(f, Ready(snapshot, false, Some(since),
                                 setting.status(snapshot.generation, s.history[|s.history| - 1]))), young, setting)
    {
      Step(s, k, Way(f, Surveying(snapshot, since)), young, setting);
    }
  }

  /** Undisturbed, the request ends with the result. */
  ghost predicate Yields(s: System, k: nat, from: Way, result: Result, young: bool, setting: Setting)
    requires k < |s.requests| && |s.history| > 0
  {
    exists n: nat :: Walk(s, k, from, young, setting, n).pc == Done(result)
  }

  lemma EndsThere(s: System, k: nat, from: Way, f: Fields, result: Result, young: bool, setting: Setting)
    requires k < |s.requests| && |s.history| > 0 && Comes(s, k, from, Way(f, Done(result)), young, setting)
    ensures Yields(s, k, from, result, young, setting)
  {
  }

  /**
   Undisturbed, a search of a snapshot without a context, whose identity is that of the current contents and
   whose stored token is none or the current one, returns what those contents hold for it, unless it is blocked.
   */
  lemma QuietSearch(s: System, k: nat, f: Fields, snapshot: Snapshot, young: bool, setting: Setting)
    requires k < |s.requests| && |s.history| > 0 && s.requests[k].job.Search?
    requires snapshot !in f.contexts && !KnownChanged(f, snapshot, |s.history| - 1)
    requires forall i :: 0 <= i < |snapshot.parts| ==> setting.part(s.history[|s.history| - 1], i) == snapshot.parts[i]
    requires InGeneration(DocumentsNow(s, s.requests[k].job.query, snapshot, setting), snapshot)
    requires InGeneration(PassagesNow(s, s.requests[k].job.query, snapshot, setting), snapshot)
    ensures var q, version := s.requests[k].job.query, |s.history| - 1;
            var documents, passages := DocumentsNow(s, q, snapshot, setting), PassagesNow(s, q, snapshot, setting);
            var status := setting.status(snapshot.generation, s.history[version]);
            Yields(s, k, Way(f, Located(snapshot)),
                   if setting.blocked(status, q) then Blocked(snapshot, false, Some(version), status)
                   else Evidence(snapshot, setting.fuse(documents, passages, q.topK), passages, false, status,
                                 version, version),
                   young, setting)
  {
    var version := |s.history| - 1;
    var status := setting.status(snapshot.generation, s.history[version]);
    var f1 := if TakenForGood(f, snapshot, young) then f
              else f.(tokens := f.tokens[snapshot := version], verified := Some(snapshot));
    QuietPreflight(s, k, f, snapshot, young, setting);
    QuietHits(s, k, f1, snapshot, status, young, setting);
    YieldsFrom(s, k, Way(f, Located(snapshot)), Way(f1, Ready(snapshot, false, Some(version), status)), young, setting);
  }

  lemma YieldsFrom(s: System, k: nat, from: Way, middle: Way, young: bool, setting: Setting)
    requires k < |s.requests| && |s.history| > 0 && Comes(s, k, from, middle, young, setting)
    ensures forall result :: Yields(s, k, middle, result, young, setting) ==> Yields(s, k, from, result, young, setting)
  {
    forall result | Yields(s, k, middle, result, young, setting)
      ensures Yields(s, k, from, result, young, setting)
    {
      var n: nat :| Walk(s, k, middle, young, setting, n).pc == Done(result);
      Then(s, k, from, middle, Walk(s, k, middle, young, setting, n), young, setting);
    }
  }

  lemma QuietPreflight(s: System, k: nat, f: Fields, snapshot: Snapshot, young: bool, setting: Setting)
    requires k < |s.requests| && |s.history| > 0
    requires snapshot !in f.contexts && !KnownChanged(f, snapshot, |s.history| - 1)
    requires forall i :: 0 <= i < |snapshot.parts| ==> setting.part(s.history[|s.history| - 1], i) == snapshot.parts[i]
    ensures var version := |s.history| - 1;
            var status := setting.status(snapshot.generation, s.history[version]);
            var f1 := if TakenForGood(f, snapshot, young) then f
                      else f.(tokens := f.tokens[snapshot := version], verified := Some(snapshot));
            Comes(s, k, Way(f, Located(snapshot)), Way(f1, Ready(snapshot, false, Some(version), status)),
                  young, setting)
  {
    var version := |s.history| - 1;
    var f1 := if TakenForGood(f, snapshot, young) then f
              else f.(tokens := f.tokens[snapshot := version], verified := Some(snapshot));
    var here, verifying, surveying :=
      Way(f, Located(snapshot)), Way(f, Verifying(snapshot, Before)), Way(f1, Surveying(snapshot, version));
    LocatedDecides(s, k, f, snapshot, young, setting);
    VerifyDecides(s, k, f, snapshot, Before, young, setting);
    Then(s, k, here, verifying, surveying, young, setting);
    LocatedDecides(s, k, f1, snapshot, young, setting);
    Then(s, k, here, surveying, Onward(s, k, surveying, young, setting), young, setting);
  }

  lemma QuietHits(s: System, k: nat, f: Fields, snapshot: Snapshot, status: string, young: bool, setting: Setting)
    requires k < |s.requests| && |s.history| > 0 && s.requests[k].job.Search?
    requires !KnownChanged(f, snapshot, |s.history| - 1) && TakenForGood(f, snapshot, young)
    requires InGeneration(DocumentsNow(s, s.requests[k].job.query, snapshot, setting), snapshot)
    requires InGeneration(PassagesNow(s, s.requests[k].job.query, snapshot, setting), snapshot)
    ensures var q, version := s.requests[k].job.query, |s.history| - 1;
            var documents, passages := DocumentsNow(s, q, snapshot, setting), PassagesNow(s, q, snapshot, setting);
            Yields(s, k, Way(f, Ready(snapshot, false, Some(version), status)),
                   if setting.blocked(status, q) then Blocked(snapshot, false, Some(version), status)
                   else Evidence(snapshot, setting.fuse(documents, passages, q.topK), passages, false, status,
                                 version, version),
                   young, setting)
  {
    var q, version := s.requests[k].job.query, |s.history| - 1;
    var documents, passages := DocumentsNow(s, q, snapshot, setting), PassagesNow(s, q, snapshot, setting);
    var ready := Way(f, Ready(snapshot, false, Some(version), status));
    ReadyDecides(s, k, f, snapshot, false, Some(version), status, young, setting);
    if setting.blocked(status, q) {
      EndsThere(s, k, ready, f, Blocked(snapshot, false, Some(version), status), young, setting);
    } else {
      var found := Way(f, HasPassages(snapshot, false, Some(version), status, documents, passages));
      var stage := After(documents, passages, version, status);
      Step(s, k, found, young, setting);
      Then(s, k, ready, found, Way(f, Verifying(snapshot, stage)), young, setting);
      VerifyDecides(s, k, f, snapshot, stage, young, setting);
      var end := Onto(snapshot, version, stage, s.requests[k].job, setting);
      Then(s, k, ready, Way(f, Verifying(snapshot, stage)), Way(f, end), young, setting);
      EndsThere(s, k, ready, f, end.result, young, setting);
    }
  }
}
