/** What the dispatch protocol promises about every run of every set of workers. */
module DispatchLaws {
  import opened Wrappers
  import opened ModelCallLedger
  import opened LedgerRuns
  import opened DispatchProtocol
  import opened DispatchSafety
  import opened TableSums
  import LedgerLaws

  // ----- How often a call is posted -----

  /** No call is ever posted twice. */
  lemma EachCallPostedOnce(s: System, moves: seq<Move>, codec: Codec, i: nat, j: nat)
    requires Init(s, codec) && i < j < |Run(s, moves, codec).posts|
    ensures Run(s, moves, codec).posts[i] != Run(s, moves, codec).posts[j]
  {
    RunPreserves(s, moves, codec);
  }

  /** The attempts of a logical request are numbered 1 to n without gaps. */
  lemma AttemptsContiguous(s: System, moves: seq<Move>, codec: Codec, id: CallId, attempt: int)
    requires Init(s, codec) && id in Run(s, moves, codec).tables.calls && attempt <= id.attempt
    ensures id.(attempt := attempt) in Run(s, moves, codec).tables.calls <==> attempt >= 1
  {
    RunPreserves(s, moves, codec);
    var u := Run(s, moves, codec);
    if attempt >= 1 {
      AllBelow(u.tables.calls, u.creators, u.workers, id, attempt);
    }
    forall x | x in u.tables.calls
      ensures x.attempt >= 1
    {
      assert Follows(u.tables.calls, u.creators, u.workers, x);
    }
  }

  function PostsOf(posts: seq<CallId>, logical: string): set<nat> {
    set i: nat | i < |posts| && posts[i].logical == logical
  }

  function ForcedBy(workers: map<nat, Worker>, logical: string): set<nat> {
    set w | w in workers && workers[w].caller.forced && Logical(workers[w].caller) == logical
  }

  function After(id: CallId): CallId {
    id.(attempt := id.attempt + 1)
  }

  /** Every record of a request has its creator and its place, and callers of one request agree. */
  ghost predicate Ordered(u: System) {
    CallersAgree(u.workers) && Chained(u.tables.calls, u.creators, u.workers)
  }

  /** Two records of one logical request differ at most in the attempt. */
  lemma SameRequest(s: System, x: CallId, y: CallId)
    requires Ordered(s) && x in s.tables.calls && y in s.tables.calls && x.logical == y.logical
    ensures x == y.(attempt := x.attempt)
  {
    RecordsAreAttempts(s, s.creators[y], x);
  }

  /** A dispatched attempt is followed only by an attempt of a forced caller. */
  lemma SuccessorForced(s: System, id: CallId)
    requires Ordered(s) && Known(s.tables.calls, id) && After(id) in s.tables.calls
    ensures s.creators[After(id)] in ForcedBy(s.workers, id.logical)
  {
    assert Follows(s.tables.calls, s.creators, s.workers, After(id));
    assert After(id).(attempt := id.attempt) == id;
    assert id.attempt >= 1 by {
      assert Follows(s.tables.calls, s.creators, s.workers, id);
    }
  }

  /** Of two records of a request, the one with the smaller attempt has a successor. */
  lemma EarlierHasSuccessor(s: System, x: CallId, y: CallId)
    requires Ordered(s) && x in s.tables.calls && y in s.tables.calls && x.logical == y.logical
    requires x.attempt < y.attempt
    ensures After(x) in s.tables.calls
  {
    SameRequest(s, x, y);
    assert Follows(s.tables.calls, s.creators, s.workers, x);
    AllBelow(s.tables.calls, s.creators, s.workers, y, x.attempt + 1);
    assert y.(attempt := x.attempt + 1) == After(x);
  }

  /** One logical request is posted at most once more than it was forced: at most once when never forced. */
  lemma PostsPerRequest(s: System, moves: seq<Move>, codec: Codec, logical: string)
    requires Init(s, codec)
    ensures |PostsOf(Run(s, moves, codec).posts, logical)| <= 1 + |ForcedBy(s.workers, logical)|
    ensures ForcedBy(Run(s, moves, codec).workers, logical) == ForcedBy(s.workers, logical)
  {
    RunPreserves(s, moves, codec);
    PostsBounded(Run(s, moves, codec), logical);
    RunKeepsCallers(s, moves, codec);
    SameForced(s.workers, Run(s, moves, codec).workers, logical);
  }

  lemma SameForced(before: map<nat, Worker>, after: map<nat, Worker>, logical: string)
    requires after.Keys == before.Keys && forall w :: w in before ==> after[w].caller == before[w].caller
    ensures ForcedBy(after, logical) == ForcedBy(before, logical)
  {
  }

  lemma {:induction false} RunKeepsCallers(s: System, moves: seq<Move>, codec: Codec)
    ensures var u := Run(s, moves, codec);
            u.workers.Keys == s.workers.Keys
            && forall w :: w in s.workers ==> u.workers[w].caller == s.workers[w].caller
  {
    if moves == [] {
    } else {
      RunKeepsCallers(s, moves[..|moves| - 1], codec);
    }
  }

  /** The posts of a request whose call has a successor attempt. */
  function Superseded(u: System, logical: string): set<nat> {
    set i | i in PostsOf(u.posts, logical) && After(u.posts[i]) in u.tables.calls
  }

  lemma PostsBounded(u: System, logical: string)
    requires Ordered(u) && PostedOnce(u.tables.calls, u.posts, u.workers)
    ensures |PostsOf(u.posts, logical)| <= 1 + |ForcedBy(u.workers, logical)|
  {
    SupersededBounded(u, logical);
    OneUnsuperseded(u, logical);
    SplitSize(PostsOf(u.posts, logical), Superseded(u, logical));
  }

  lemma SplitSize(all: set<nat>, part: set<nat>)
    requires part <= all
    ensures |all| == |part| + |all - part|
  {
    assert all == part + (all - part);
  }

  /** The creator of the attempt after a superseded post. */
  function SuccessorBy(u: System, logical: string): map<nat, nat>
    requires forall id :: id in u.tables.calls ==> id in u.creators
  {
    map i | i in Superseded(u, logical) :: u.creators[After(u.posts[i])]
  }

  lemma SuccessorsAreForced(u: System, logical: string)
    requires Ordered(u) && PostedOnce(u.tables.calls, u.posts, u.workers)
    ensures forall i :: i in SuccessorBy(u, logical) ==> SuccessorBy(u, logical)[i] in ForcedBy(u.workers, logical)
  {
    forall i | i in Superseded(u, logical)
      ensures u.creators[After(u.posts[i])] in ForcedBy(u.workers, logical)
    {
      SuccessorForced(u, u.posts[i]);
    }
  }

  lemma SuccessorsDiffer(u: System, logical: string, i: nat, j: nat)
    requires Ordered(u) && PostedOnce(u.tables.calls, u.posts, u.workers) && i in SuccessorBy(u, logical)
    requires j in SuccessorBy(u, logical)
    requires SuccessorBy(u, logical)[i] == SuccessorBy(u, logical)[j]
    ensures i == j
  {
    SuccessorsApart(u.posts[i], u.posts[j]);
  }

  lemma SuccessorsAreDistinct(u: System, logical: string)
    requires Ordered(u) && PostedOnce(u.tables.calls, u.posts, u.workers)
    ensures var follow := SuccessorBy(u, logical);
            forall i, j :: i in follow && j in follow && follow[i] == follow[j] ==> i == j
  {
    var follow := SuccessorBy(u, logical);
    forall i, j | i in follow && j in follow && follow[i] == follow[j]
      ensures i == j
    {
      SuccessorsDiffer(u, logical, i, j);
    }
  }

  lemma SuccessorKeys(u: System, logical: string)
    requires forall id :: id in u.tables.calls ==> id in u.creators
    ensures SuccessorBy(u, logical).Keys == Superseded(u, logical)
  {
  }

  lemma SupersededBounded(u: System, logical: string)
    requires Ordered(u) && PostedOnce(u.tables.calls, u.posts, u.workers)
    ensures |Superseded(u, logical)| <= |ForcedBy(u.workers, logical)|
  {
    SuccessorsAreForced(u, logical);
    SuccessorsAreDistinct(u, logical);
    SuccessorKeys(u, logical);
    InjectionBound(SuccessorBy(u, logical), ForcedBy(u.workers, logical));
  }

  lemma SuccessorsApart(x: CallId, y: CallId)
    ensures After(x) == After(y) ==> x == y
  {
    assert After(x).(attempt := x.attempt) == x;
    assert After(y).(attempt := y.attempt) == y;
  }

  lemma UnsupersededAlike(u: System, logical: string, i: nat, j: nat)
    requires Ordered(u) && PostedOnce(u.tables.calls, u.posts, u.workers)
    requires i in PostsOf(u.posts, logical) - Superseded(u, logical)
    requires j in PostsOf(u.posts, logical) - Superseded(u, logical)
    ensures i == j
  {
    SameRequest(u, u.posts[i], u.posts[j]);
    if u.posts[i].attempt < u.posts[j].attempt {
      EarlierHasSuccessor(u, u.posts[i], u.posts[j]);
    } else if u.posts[j].attempt < u.posts[i].attempt {
      EarlierHasSuccessor(u, u.posts[j], u.posts[i]);
    }
  }

  lemma OneUnsuperseded(u: System, logical: string)
    requires Ordered(u) && PostedOnce(u.tables.calls, u.posts, u.workers)
    ensures |PostsOf(u.posts, logical) - Superseded(u, logical)| <= 1
  {
    var left := PostsOf(u.posts, logical) - Superseded(u, logical);
    var last := map i | i in left :: 0;
    forall i, j | i in last && j in last
      ensures i == j
    {
      UnsupersededAlike(u, logical, i, j);
    }
    InjectionBound(last, {0});
    assert last.Keys == left;
  }

  // ----- What callers return -----

  /**
   Without a forced attempt, all callers of a logical request that return get the response
   of one and the same record: the message of the persisted response or, for at most one of
   them, the message of the payload that was sanitised into it.
   */
  lemma CallersGetOneResponse(s: System, moves: seq<Move>, codec: Codec, v: nat, w: nat)
    requires Init(s, codec)
    requires var u := Run(s, moves, codec);
             && v in u.workers && w in u.workers
             && u.workers[v].pc.Returned? && u.workers[w].pc.Returned?
             && Logical(u.workers[v].caller) == Logical(u.workers[w].caller)
             && ForcedBy(u.workers, Logical(u.workers[v].caller)) == {}
    ensures var u := Run(s, moves, codec);
            var id := u.workers[v].pc.id;
            && u.workers[w].pc.id == id
            && id in u.tables.calls && u.tables.calls[id].state.Succeeded? && u.tables.calls[id].response.Some?
            && ComesFrom(u.workers[v], u.tables.calls[id].response.value, codec)
            && ComesFrom(u.workers[w], u.tables.calls[id].response.value, codec)
            && (u.workers[v].pc.payload.Some? && u.workers[w].pc.payload.Some? ==> v == w)
  {
    RunPreserves(s, moves, codec);
    ReturnsAgree(Run(s, moves, codec), codec, v, w);
  }

  lemma ReturnsAgree(u: System, codec: Codec, v: nat, w: nat)
    requires Inv(u, codec) && v in u.workers && w in u.workers
    requires u.workers[v].pc.Returned? && u.workers[w].pc.Returned?
    requires Logical(u.workers[v].caller) == Logical(u.workers[w].caller)
    requires ForcedBy(u.workers, Logical(u.workers[v].caller)) == {}
    ensures var id := u.workers[v].pc.id;
            && u.workers[w].pc.id == id
            && id in u.tables.calls && u.tables.calls[id].state.Succeeded? && u.tables.calls[id].response.Some?
            && ComesFrom(u.workers[v], u.tables.calls[id].response.value, codec)
            && ComesFrom(u.workers[w], u.tables.calls[id].response.value, codec)
            && (u.workers[v].pc.payload.Some? && u.workers[w].pc.payload.Some? ==> v == w)
  {
    var x, y := u.workers[v].pc.id, u.workers[w].pc.id;
    assert PcOk(u.tables.calls, u.workers[v].caller, u.workers[v].pc, codec);
    assert PcOk(u.tables.calls, u.workers[w].caller, u.workers[w].pc, codec);
    DispatchedIsLast(u, x, y);
    DispatchedIsLast(u, y, x);
    SameRequest(u, x, y);
    if u.workers[v].pc.payload.Some? && u.workers[w].pc.payload.Some? {
      assert Holds(u.workers[v].pc, x) && Holds(u.workers[w].pc, x);
    }
  }

  /** Without forced callers no attempt of a request follows a dispatched one. */
  lemma DispatchedIsLast(u: System, x: CallId, y: CallId)
    requires Ordered(u) && Known(u.tables.calls, x) && y in u.tables.calls && x.logical == y.logical
    requires ForcedBy(u.workers, x.logical) == {}
    ensures y.attempt <= x.attempt
  {
    if x.attempt < y.attempt {
      EarlierHasSuccessor(u, x, y);
      SuccessorForced(u, x);
    }
  }

  predicate ComesFrom(worker: Worker, response: Json, codec: Codec)
    requires worker.pc.Returned?
  {
    match worker.pc.payload
    case None => codec.message(worker.caller.client, response) == Some(worker.pc.value)
    case Some(data) => codec.sanitize(data) == response
                       && codec.message(worker.caller.client, data) == Some(worker.pc.value)
  }

  // ----- Operations -----

  function PostsUnder(posts: seq<CallId>, attempts: map<CallId, Attempt>, operation: string): set<nat> {
    set i: nat | i < |posts| && posts[i] in attempts && attempts[posts[i]].operation == operation
  }

  /** For every operation: posts <= reserved attempts <= its limit, and repairs <= their limit. */
  lemma OperationBounded(s: System, moves: seq<Move>, codec: Codec, operation: string)
    requires Init(s, codec)
    ensures var u := Run(s, moves, codec);
            var attempts := AttemptsOf(u.tables.attempts, operation);
            var repairs := RepairsOf(u.tables.attempts, operation);
            && |PostsUnder(u.posts, u.tables.attempts, operation)| <= |attempts|
            && (attempts != {} ==>
                  operation in u.tables.limits && |attempts| <= u.tables.limits[operation].modelCalls)
            && (repairs != {} ==>
                  operation in u.tables.limits && |repairs| <= u.tables.limits[operation].repairCalls)
  {
    RunPreserves(s, moves, codec);
    RunRecords(s, moves, codec);
    var u := Run(s, moves, codec);
    PostsWithinAttempts(u.posts, u.tables.attempts, operation);
    LedgerLaws.AttemptsWithinLimits(u.history, codec.sanitize, operation);
  }

  lemma PostsWithinAttempts(posts: seq<CallId>, attempts: map<CallId, Attempt>, operation: string)
    requires forall i, j :: 0 <= i < j < |posts| ==> posts[i] != posts[j]
    ensures |PostsUnder(posts, attempts, operation)| <= |AttemptsOf(attempts, operation)|
  {
    var posted := map i | i in PostsUnder(posts, attempts, operation) :: posts[i];
    InjectionBound(posted, AttemptsOf(attempts, operation));
    assert posted.Keys == PostsUnder(posts, attempts, operation);
  }

  /** The move claims `id` for dispatch: by the owner of the operation it is bound to, whose lease is running. */
  ghost predicate Claims(b: System, m: Move, id: CallId) {
    && m.Claim? && Enabled(b, m)
    && b.workers[m.worker].pc.id == id
    && id in b.tables.calls && b.tables.calls[id].state.Prepared?
    && var claim := b.workers[m.worker].caller.template.claim;
       && BoundOperation(b.tables, id) == ClaimedOperation(claim)
       && (claim.Some? ==> Owns(b.tables, claim.value, m.now))
  }

  /** The k-th move of the run claims `id`. */
  ghost predicate ClaimedAt(s: System, moves: seq<Move>, codec: Codec, id: CallId, k: nat)
    requires k < |moves|
  {
    Claims(Run(s, moves[..k], codec), moves[k], id)
  }

  ghost predicate InFlight(posts: seq<CallId>, workers: map<nat, Worker>, id: CallId) {
    id in posts || exists w :: w in workers && workers[w].pc.Sending? && Holds(workers[w].pc, id)
  }

  lemma ComesInFlight(b: System, m: Move, codec: Codec, id: CallId)
    requires Inv(b, codec) && Enabled(b, m)
    requires !InFlight(b.posts, b.workers, id) && InFlight(PostsAfter(b, m), WorkersAfter(b, m, codec), id)
    ensures Claims(b, m, id)
  {
    var workers := WorkersAfter(b, m, codec);
    assert id !in PostsAfter(b, m) by {
      if m.Post? {
        assert Holds(b.workers[m.worker].pc, b.workers[m.worker].pc.id);
      }
    }
    var w :| w in workers && workers[w].pc.Sending? && Holds(workers[w].pc, id);
    HoldersCome(b, m, codec, w, id);
    SendingClaims(b, m, codec, w, id);
  }

  lemma SendingClaims(b: System, m: Move, codec: Codec, w: nat, id: CallId)
    requires Enabled(b, m) && m.Claim? && w == m.worker && !Holds(b.workers[w].pc, id)
    requires Holds(NextPc(b.tables, b.workers[w].caller, b.workers[w].pc, m, codec), id)
    ensures Claims(b, m, id)
  {
    OnlyClaimsHold(b.tables, b.workers[w].caller, b.workers[w].pc, m, codec, id);
  }

  lemma ClaimedLast(s: System, moves: seq<Move>, codec: Codec, id: CallId)
    requires moves != [] && Claims(Run(s, moves[..|moves| - 1], codec), moves[|moves| - 1], id)
    ensures ClaimedAt(s, moves, codec, id, |moves| - 1)
  {
  }

  lemma ClaimedEarlier(s: System, moves: seq<Move>, codec: Codec, id: CallId, k: nat)
    requires moves != [] && k < |moves| - 1 && ClaimedAt(s, moves[..|moves| - 1], codec, id, k)
    ensures ClaimedAt(s, moves, codec, id, k)
  {
    assert moves[..|moves| - 1][..k] == moves[..k];
  }

  /** Every call that was posted, or is about to be, was claimed under its lease earlier in the run. */
  lemma {:induction false} PostedUnderLease(s: System, moves: seq<Move>, codec: Codec, id: CallId)
    requires Init(s, codec)
    requires InFlight(Run(s, moves, codec).posts, Run(s, moves, codec).workers, id)
    ensures exists k: nat :: k < |moves| && ClaimedAt(s, moves, codec, id, k)
  {
    if moves == [] {
    } else {
      var init := moves[..|moves| - 1];
      var b := Run(s, init, codec);
      if InFlight(b.posts, b.workers, id) {
        PostedUnderLease(s, init, codec, id);
        var k: nat :| k < |init| && ClaimedAt(s, init, codec, id, k);
        ClaimedEarlier(s, moves, codec, id, k);
      } else {
        RunPreserves(s, init, codec);
        ComesInFlight(b, moves[|moves| - 1], codec, id);
        ClaimedLast(s, moves, codec, id);
      }
    }
  }

  // ----- The ledger underneath -----

  /**
   The tables under any run of workers are those of a run of ledger transactions, so every
   ledger law holds of them.
   */
  lemma {:induction false} WorkersRunTheLedger(s: System, moves: seq<Move>, codec: Codec)
    requires Init(s, codec)
    ensures var u := Run(s, moves, codec);
            u.tables == Replay(u.history, codec.sanitize) && s.history <= u.history
  {
    RunRecords(s, moves, codec);
    HistoryGrows(s, moves, codec);
  }

  lemma {:induction false} HistoryGrows(s: System, moves: seq<Move>, codec: Codec)
    ensures s.history <= Run(s, moves, codec).history
  {
    if moves == [] {
    } else {
      HistoryGrows(s, moves[..|moves| - 1], codec);
    }
  }
}
