/** What the status of the knowledge base decides about a search. */
module SearchPreflight {
  import opened Wrappers
  import opened RetrievalGateway
  import opened GatewayRuns
  import opened GatewayLaws

  // ----- The status a search goes by -----

  /** The status is that of the snapshot's generation at a version not before `from`. */
  ghost predicate ReadSince(history: seq<Facts>, snapshot: Snapshot, status: string, from: nat, setting: Setting) {
    exists v: nat :: from <= v < |history| && status == setting.status(snapshot.generation, history[v])
  }

  /** The status was read after the search's own first verification or, with a context, when that was made. */
  ghost predicate Reported(history: seq<Facts>, snapshot: Snapshot, verified: bool, held: Option<nat>, status: string,
                           setting: Setting)
  {
    && (!verified ==> held.Some?)
    && ReadSince(history, snapshot, status, if verified then 0 else held.value, setting)
  }

  predicate Passes(r: Request, status: string, setting: Setting) {
    r.job.Search? && !setting.blocked(status, r.job.query)
  }

  ghost predicate StageReported(history: seq<Facts>, r: Request, snapshot: Snapshot, stage: Stage, setting: Setting) {
    stage.After? ==>
      Passes(r, stage.status, setting) && Reported(history, snapshot, false, Some(stage.since), stage.status, setting)
  }

  ghost predicate StatusOk(history: seq<Facts>, r: Request, setting: Setting) {
    match r.pc
    case Inspected(snapshot, status) => ReadSince(history, snapshot, status, 0, setting)
    case Binding(context) => ReadSince(history, context.snapshot, context.status, 0, setting)
    case Surveying(_, since) => since < |history|
    case Ready(snapshot, verified, held, status) => Reported(history, snapshot, verified, held, status, setting)
    case HasDocuments(snapshot, verified, held, status, _) =>
      Passes(r, status, setting) && Reported(history, snapshot, verified, held, status, setting)
    case HasPassages(snapshot, verified, held, status, _, _) =>
      Passes(r, status, setting) && Reported(history, snapshot, verified, held, status, setting)
    case Verifying(snapshot, stage) => StageReported(history, r, snapshot, stage, setting)
    case Comparing(snapshot, _, stage) => StageReported(history, r, snapshot, stage, setting)
    case Rescanning(snapshot, _, _, stage) => StageReported(history, r, snapshot, stage, setting)
    case Confirmed(snapshot, _, stage) => StageReported(history, r, snapshot, stage, setting)
    case Done(Evidence(snapshot, _, _, verified, status, since, _)) =>
      Passes(r, status, setting) && Reported(history, snapshot, verified, Some(since), status, setting)
    case Done(Blocked(snapshot, verified, held, status)) =>
      && r.job.Search? && setting.blocked(status, r.job.query)
      && Reported(history, snapshot, verified, held, status, setting)
    case _ => true
  }

  ghost predicate ContextsReported(history: seq<Facts>, f: Fields, setting: Setting) {
    forall s :: s in f.contexts ==> ReadSince(history, s, f.contexts[s].status, 0, setting)
  }

  ghost predicate StatusInv(s: System, setting: Setting) {
    && |s.history| > 0
    && ContextsReported(s.history, s.fields, setting)
    && forall i :: 0 <= i < |s.requests| ==> StatusOk(s.history, s.requests[i], setting)
  }

  lemma ReadLater(history: seq<Facts>, facts: Facts, snapshot: Snapshot, status: string, from: nat, setting: Setting)
    requires ReadSince(history, snapshot, status, from, setting)
    ensures ReadSince(history + [facts], snapshot, status, from, setting)
  {
    var v: nat :| from <= v < |history| && status == setting.status(snapshot.generation, history[v]);
    assert (history + [facts])[v] == history[v];
  }

  lemma StatusLater(history: seq<Facts>, facts: Facts, r: Request, setting: Setting)
    requires StatusOk(history, r, setting)
    ensures StatusOk(history + [facts], r, setting)
  {
    forall snapshot, status, from | ReadSince(history, snapshot, status, from, setting)
      ensures ReadSince(history + [facts], snapshot, status, from, setting)
    {
      ReadLater(history, facts, snapshot, status, from, setting);
    }
  }

  lemma ReadNow(s: System, snapshot: Snapshot, from: nat, setting: Setting)
    requires from < |s.history|
    ensures ReadSince(s.history, snapshot, setting.status(snapshot.generation, Now(s)), from, setting)
  {
    assert s.history[|s.history| - 1] == Now(s);
  }

  /** The request is at its search, from its preflight to its last verification. */
  predicate Searching(pc: Pc) {
    pc.Ready? || pc.HasDocuments? || pc.HasPassages?
  }

  predicate Checking(pc: Pc) {
    pc.Verifying? || pc.Comparing? || pc.Rescanning? || pc.Confirmed?
  }

  lemma SearchStatus(s: System, r: Request, young: bool, setting: Setting)
    requires |s.history| > 0 && StatusOk(s.history, r, setting) && Searching(r.pc)
    requires r.pc.HasPassages? ==> r.pc.held.Some?
    ensures StatusOk(s.history, r.(pc := NextPc(s, r, young, setting)), setting)
  {
  }

  lemma CheckStatus(s: System, r: Request, young: bool, setting: Setting)
    requires |s.history| > 0 && StatusOk(s.history, r, setting) && Checking(r.pc)
    requires (r.pc.Comparing? || r.pc.Confirmed?) ==> r.pc.token < |s.history|
    ensures StatusOk(s.history, r.(pc := NextPc(s, r, young, setting)), setting)
  {
  }

  lemma OtherStatus(s: System, r: Request, young: bool, setting: Setting)
    requires |s.history| > 0 && ContextsReported(s.history, s.fields, setting) && StatusOk(s.history, r, setting)
    requires !Searching(r.pc) && !Checking(r.pc)
    ensures StatusOk(s.history, r.(pc := NextPc(s, r, young, setting)), setting)
  {
    match r.pc
    case Pinned(snapshot, _) => ReadNow(s, snapshot, 0, setting);
    case Surveying(snapshot, since) => ReadNow(s, snapshot, since, setting);
    case _ =>
  }

  lemma OwnStatus(s: System, r: Request, young: bool, setting: Setting)
    requires |s.history| > 0 && RequestOk(s.history, s.fields, r, setting)
    requires ContextsReported(s.history, s.fields, setting) && StatusOk(s.history, r, setting)
    ensures StatusOk(s.history, r.(pc := NextPc(s, r, young, setting)), setting)
  {
    if Searching(r.pc) {
      SearchStatus(s, r, young, setting);
    } else if Checking(r.pc) {
      CheckStatus(s, r, young, setting);
    } else {
      OtherStatus(s, r, young, setting);
    }
  }

  lemma ContextsStay(s: System, r: Request, setting: Setting)
    requires |s.history| > 0 && ContextsReported(s.history, s.fields, setting) && StatusOk(s.history, r, setting)
    ensures ContextsReported(s.history, NextFields(s.fields, r.pc), setting)
  {
  }

  lemma StatusStep(s: System, m: Move, setting: Setting)
    requires Inv(s, setting) && StatusInv(s, setting)
    ensures StatusInv(Next(s, m, setting), setting)
  {
    match m
    case Write(facts) =>
      forall i | 0 <= i < |s.requests|
        ensures StatusOk(s.history + [facts], s.requests[i], setting)
      {
        StatusLater(s.history, facts, s.requests[i], setting);
      }
      forall c | c in s.fields.contexts
        ensures ReadSince(s.history + [facts], c, s.fields.contexts[c].status, 0, setting)
      {
        ReadLater(s.history, facts, c, s.fields.contexts[c].status, 0, setting);
      }
    case Advance(k, young) =>
      if k < |s.requests| {
        OwnStatus(s, s.requests[k], young, setting);
        ContextsStay(s, s.requests[k], setting);
      }
    case _ =>
  }

  lemma {:induction false} StatusInvariant(facts: Facts, moves: seq<Move>, setting: Setting)
    ensures StatusInv(Run(facts, moves, setting), setting)
  {
    if moves == [] {
    } else {
      var init := moves[..|moves| - 1];
      StatusInvariant(facts, init, setting);
      Invariant(facts, init, setting);
      StatusStep(Run(facts, init, setting), moves[|moves| - 1], setting);
    }
  }

  // ----- Which context a search goes by -----

  /** The snapshot and status a search with a context goes by, from where it finds the context to its end. */
  function HeldStatus(pc: Pc): Option<(Snapshot, string)> {
    match pc
    case Ready(snapshot, verified, _, status) => if verified then Some((snapshot, status)) else None
    case HasDocuments(snapshot, verified, _, status, _) => if verified then Some((snapshot, status)) else None
    case HasPassages(snapshot, verified, _, status, _, _) => if verified then Some((snapshot, status)) else None
    case Done(Evidence(snapshot, _, _, verified, status, _, _)) => if verified then Some((snapshot, status)) else None
    case Done(Blocked(snapshot, verified, _, status)) => if verified then Some((snapshot, status)) else None
    case _ => None
  }

  /** The request has come to a snapshot whose context has the status. */
  predicate FindsContext(s: System, k: nat, snapshot: Snapshot, status: string) {
    && k < |s.requests| && s.requests[k].pc == Located(snapshot)
    && snapshot in s.fields.contexts && s.fields.contexts[snapshot].status == status
  }

  lemma EntersByContext(s: System, m: Move, setting: Setting, k: nat)
    requires |s.history| > 0 && k < |Next(s, m, setting).requests|
    requires HeldStatus(Next(s, m, setting).requests[k].pc).Some?
    ensures k < |s.requests|
    ensures var held := HeldStatus(Next(s, m, setting).requests[k].pc).value;
            HeldStatus(s.requests[k].pc) == Some(held)
            || (m.Advance? && m.request == k && FindsContext(s, k, held.0, held.1))
  {
  }

  lemma {:induction false} ContextExists(facts: Facts, moves: seq<Move>, setting: Setting, k: nat) returns (n: nat)
    requires var s := Run(facts, moves, setting); k < |s.requests| && HeldStatus(s.requests[k].pc).Some?
    ensures n < |moves| && moves[n].Advance? && moves[n].request == k
    ensures var held := HeldStatus(Run(facts, moves, setting).requests[k].pc).value;
            FindsContext(Run(facts, moves[..n], setting), k, held.0, held.1)
  {
    var init := moves[..|moves| - 1];
    var s, held := Run(facts, init, setting), HeldStatus(Run(facts, moves, setting).requests[k].pc).value;
    EntersByContext(s, moves[|moves| - 1], setting, k);
    if HeldStatus(s.requests[k].pc) == Some(held) {
      n := ContextExists(facts, init, setting, k);
      assert init[..n] == moves[..n];
    } else {
      n := |moves| - 1;
    }
  }

  // ----- Laws -----

  /**
   A search that returns evidence went by a status that is not blocked for its query, and one that ends blocked
   by one that is. Without a context it read that status at a version since its first verification.
   */
  lemma PreflightDecides(facts: Facts, moves: seq<Move>, setting: Setting, k: nat)
    requires var s := Run(facts, moves, setting);
             k < |s.requests| && s.requests[k].pc.Done?
             && (s.requests[k].pc.result.Evidence? || s.requests[k].pc.result.Blocked?)
    ensures var s := Run(facts, moves, setting);
            var r, result := s.requests[k], s.requests[k].pc.result;
            && r.job.Search?
            && (setting.blocked(result.status, r.job.query) <==> result.Blocked?)
            && (!result.verified ==>
                  var since := if result.Evidence? then Some(result.since) else result.held;
                  since.Some? && ReadSince(s.history, result.snapshot, result.status, since.value, setting))
  {
    StatusInvariant(facts, moves, setting);
    var s := Run(facts, moves, setting);
    assert StatusOk(s.history, s.requests[k], setting);
  }

  /** With a context the status is that of the context the search found, which was read at some version. */
  lemma ContextDecides(facts: Facts, moves: seq<Move>, setting: Setting, k: nat) returns (n: nat)
    requires var s := Run(facts, moves, setting);
             k < |s.requests| && s.requests[k].pc.Done?
             && (s.requests[k].pc.result.Evidence? || s.requests[k].pc.result.Blocked?)
             && s.requests[k].pc.result.verified
    ensures n < |moves| && moves[n].Advance? && moves[n].request == k
    ensures var s, result := Run(facts, moves, setting), Run(facts, moves, setting).requests[k].pc.result;
            && FindsContext(Run(facts, moves[..n], setting), k, result.snapshot, result.status)
            && ReadSince(s.history, result.snapshot, result.status, 0, setting)
  {
    StatusInvariant(facts, moves, setting);
    var s := Run(facts, moves, setting);
    assert StatusOk(s.history, s.requests[k], setting);
    n := ContextExists(facts, moves, setting, k);
  }
}
