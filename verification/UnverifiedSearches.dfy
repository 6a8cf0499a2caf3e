/** Searches without a verified context: exactly when their evidence is that of one version. */
module UnverifiedSearches {
  import opened Wrappers
  import opened RetrievalGateway
  import opened GatewayRuns
  import opened GatewayLaws

  /** The snapshot of a search without a context and the token its first verification saw, from then to its end. */
  function Surveyed(pc: Pc): Option<(Snapshot, nat)> {
    match pc
    case Surveying(snapshot, since) => Some((snapshot, since))
    case Ready(snapshot, verified, held, _) => if !verified && held.Some? then Some((snapshot, held.value)) else None
    case HasDocuments(snapshot, verified, held, _, _) =>
      if !verified && held.Some? then Some((snapshot, held.value)) else None
    case HasPassages(snapshot, verified, held, _, _, _) =>
      if !verified && held.Some? then Some((snapshot, held.value)) else None
    case Verifying(snapshot, stage) => if stage.After? then Some((snapshot, stage.since)) else None
    case Comparing(snapshot, _, stage) => if stage.After? then Some((snapshot, stage.since)) else None
    case Rescanning(snapshot, _, _, stage) => if stage.After? then Some((snapshot, stage.since)) else None
    case Confirmed(snapshot, _, stage) => if stage.After? then Some((snapshot, stage.since)) else None
    case Done(result) => if result.Evidence? && !result.verified then Some((result.snapshot, result.since)) else None
    case _ => None
  }

  /**
   The move stores a token of the snapshot for a request other than `k`: a pin or a
   verification that has scanned it again.
   */
  predicate Restores(s: System, m: Move, k: nat, snapshot: Snapshot) {
    && m.Advance? && m.request < |s.requests| && m.request != k
    && var pc := s.requests[m.request].pc;
       (pc.Rechecked? || pc.Confirmed?) && pc.snapshot == snapshot
  }

  /** The token the last verification of a search without a context has accepted. */
  function Accepted(pc: Pc): Option<nat> {
    match pc
    case Rescanning(_, token, _, stage) => if stage.After? then Some(token) else None
    case Confirmed(_, token, stage) => if stage.After? then Some(token) else None
    case Done(result) => if result.Evidence? && !result.verified then Some(result.until) else None
    case _ => None
  }

  /** The search's token is still the stored one, and the only one accepted. */
  predicate Undisturbed(s: System, k: nat, snapshot: Snapshot, since: nat) {
    k < |s.requests| && OwnToken(s.fields, s.requests[k].pc, snapshot, since)
  }

  predicate OwnToken(f: Fields, pc: Pc, snapshot: Snapshot, since: nat) {
    && snapshot in f.tokens
    && (Surveyed(pc).Some? ==>
          && Surveyed(pc) == Some((snapshot, since))
          && f.tokens[snapshot] == since
          && (Accepted(pc).Some? ==> Accepted(pc) == Some(since)))
    && (Surveyed(pc).None? ==> pc.Done?)
  }

  /** The search itself moves: it stores, accepts and carries on with no token but its own. */
  lemma UndisturbedOwn(s: System, r: Request, young: bool, setting: Setting, snapshot: Snapshot, since: nat)
    requires |s.history| > 0 && OwnToken(s.fields, r.pc, snapshot, since)
    ensures OwnToken(NextFields(s.fields, r.pc), NextPc(s, r, young, setting), snapshot, since)
  {
  }

  lemma UndisturbedStep(s: System, m: Move, setting: Setting, k: nat, snapshot: Snapshot, since: nat)
    requires |s.history| > 0 && Undisturbed(s, k, snapshot, since) && !Restores(s, m, k, snapshot)
    ensures Undisturbed(Next(s, m, setting), k, snapshot, since)
  {
    if m.Advance? && m.request == k {
      UndisturbedOwn(s, s.requests[k], m.young, setting, snapshot, since);
    }
  }

  /** A first verification ends with its token stored. */
  lemma SurveyStarts(s: System, m: Move, setting: Setting, k: nat)
    requires Inv(s, setting) && k < |s.requests| && !s.requests[k].pc.Surveying?
    requires Next(s, m, setting).requests[k].pc.Surveying?
    ensures var pc := Next(s, m, setting).requests[k].pc; Undisturbed(Next(s, m, setting), k, pc.snapshot, pc.since)
  {
    assert RequestOk(s.history, s.fields, s.requests[k], setting);
  }

  /** The j-th move ended the first verification of request `k`. */
  ghost predicate Surveys(facts: Facts, moves: seq<Move>, setting: Setting, k: nat, j: nat)
    requires j < |moves|
  {
    var before, after := Run(facts, moves[..j], setting), Run(facts, moves[..j + 1], setting);
    && k < |before.requests| && k < |after.requests|
    && !before.requests[k].pc.Surveying? && after.requests[k].pc.Surveying?
  }

  /** The n-th move restores the token of the snapshot for another request than `k`. */
  ghost predicate RestoresAt(facts: Facts, moves: seq<Move>, setting: Setting, k: nat, snapshot: Snapshot, n: nat)
    requires n < |moves|
  {
    Restores(Run(facts, moves[..n], setting), moves[n], k, snapshot)
  }

  /** Request `k` has ended as a search without a context that returned evidence. */
  ghost predicate EndsUnverified(facts: Facts, moves: seq<Move>, setting: Setting, k: nat) {
    var s := Run(facts, moves, setting);
    k < |s.requests| && s.requests[k].pc.Done? && s.requests[k].pc.result.Evidence? && !s.requests[k].pc.result.verified
  }

  lemma RunUpTo(facts: Facts, moves: seq<Move>, setting: Setting, n: nat)
    requires n < |moves|
    ensures Run(facts, moves[..n + 1], setting) == Next(Run(facts, moves[..n], setting), moves[n], setting)
  {
    assert moves[..n + 1][..n] == moves[..n];
  }

  lemma {:induction false} StaysUndisturbed(facts: Facts, moves: seq<Move>, setting: Setting, k: nat,
                                            snapshot: Snapshot, since: nat, j: nat, n: nat)
    requires j <= n <= |moves| && Undisturbed(Run(facts, moves[..j], setting), k, snapshot, since)
    requires forall i :: j <= i < n ==> !RestoresAt(facts, moves, setting, k, snapshot, i)
    ensures Undisturbed(Run(facts, moves[..n], setting), k, snapshot, since)
    decreases n
  {
    if n == j {
    } else {
      StaysUndisturbed(facts, moves, setting, k, snapshot, since, j, n - 1);
      UndisturbedMore(facts, moves, setting, k, snapshot, since, n - 1);
    }
  }

  lemma SurveyUndisturbed(facts: Facts, moves: seq<Move>, setting: Setting, k: nat, j: nat)
    requires j < |moves| && Surveys(facts, moves, setting, k, j)
    ensures var s := Run(facts, moves[..j + 1], setting);
            Undisturbed(s, k, s.requests[k].pc.snapshot, s.requests[k].pc.since)
  {
    RunUpTo(facts, moves, setting, j);
    Invariant(facts, moves[..j], setting);
    SurveyStarts(Run(facts, moves[..j], setting), moves[j], setting, k);
  }

  lemma UndisturbedMore(facts: Facts, moves: seq<Move>, setting: Setting, k: nat, snapshot: Snapshot, since: nat,
                        n: nat)
    requires n < |moves| && !RestoresAt(facts, moves, setting, k, snapshot, n)
    requires Undisturbed(Run(facts, moves[..n], setting), k, snapshot, since)
    ensures Undisturbed(Run(facts, moves[..n + 1], setting), k, snapshot, since)
  {
    RunUpTo(facts, moves, setting, n);
    UndisturbedStep(Run(facts, moves[..n], setting), moves[n], setting, k, snapshot, since);
  }

  lemma UndisturbedEvidence(s: System, k: nat, snapshot: Snapshot, since: nat)
    requires Undisturbed(s, k, snapshot, since)
    requires s.requests[k].pc.Done? && s.requests[k].pc.result.Evidence? && !s.requests[k].pc.result.verified
    ensures s.requests[k].pc.result.since == s.requests[k].pc.result.until
  {
  }

  lemma QuietTokens(facts: Facts, moves: seq<Move>, setting: Setting, k: nat, j: nat)
    requires j < |moves| && Surveys(facts, moves, setting, k, j) && EndsUnverified(facts, moves, setting, k)
    requires var snapshot := Run(facts, moves[..j + 1], setting).requests[k].pc.snapshot;
             forall n :: j < n < |moves| ==> !RestoresAt(facts, moves, setting, k, snapshot, n)
    ensures var e := Run(facts, moves, setting).requests[k].pc.result; e.since == e.until
  {
    var pc := Run(facts, moves[..j + 1], setting).requests[k].pc;
    SurveyUndisturbed(facts, moves, setting, k, j);
    StaysUndisturbed(facts, moves, setting, k, pc.snapshot, pc.since, j + 1, |moves|);
    assert moves[..|moves|] == moves;
    UndisturbedEvidence(Run(facts, moves, setting), k, pc.snapshot, pc.since);
  }

  /**
   A search without a context sees one version, whoever writes meanwhile, if from the end of its first
   verification no other request stores a token of its snapshot.
   */
  lemma QuietSearchSeesOneVersion(facts: Facts, moves: seq<Move>, setting: Setting, k: nat, j: nat)
    requires j < |moves| && Surveys(facts, moves, setting, k, j) && EndsUnverified(facts, moves, setting, k)
    requires var snapshot := Run(facts, moves[..j + 1], setting).requests[k].pc.snapshot;
             forall n :: j < n < |moves| ==> !RestoresAt(facts, moves, setting, k, snapshot, n)
    ensures var s := Run(facts, moves, setting);
            var e := s.requests[k].pc.result;
            && e.since == e.until < |s.history| && s.requests[k].job.Search?
            && Describes(s.history, e.until, e.snapshot, setting)
            && ComputedAt(s.history, s.requests[k].job.query, e, e.until, setting)
  {
    QuietTokens(facts, moves, setting, k, j);
    UnverifiedSearch(facts, moves, setting, k);
  }

  /** A request comes to be surveyed only by its survey, and a surveyed one keeps its snapshot and token. */
  lemma OwnSurvey(s: System, r: Request, young: bool, setting: Setting)
    requires |s.history| > 0 && RequestOk(s.history, s.fields, r, setting)
    requires var after := NextPc(s, r, young, setting); Surveyed(after).Some?
    ensures var after := NextPc(s, r, young, setting);
            if Surveyed(r.pc).None? then after.Surveying? else Surveyed(after) == Surveyed(r.pc)
  {
  }

  lemma EntersBySurvey(s: System, m: Move, setting: Setting, k: nat)
    requires Inv(s, setting) && k < |Next(s, m, setting).requests| && Surveyed(Next(s, m, setting).requests[k].pc).Some?
    ensures k < |s.requests|
    ensures Surveyed(s.requests[k].pc).None? ==> Next(s, m, setting).requests[k].pc.Surveying?
    ensures Surveyed(s.requests[k].pc).Some? ==>
              Surveyed(s.requests[k].pc) == Surveyed(Next(s, m, setting).requests[k].pc)
  {
    if m.Advance? && m.request == k && k < |s.requests| {
      OwnSurvey(s, s.requests[k], m.young, setting);
    }
  }

  lemma {:induction false} SurveyExists(facts: Facts, moves: seq<Move>, setting: Setting, k: nat) returns (j: nat)
    requires var s := Run(facts, moves, setting); k < |s.requests| && Surveyed(s.requests[k].pc).Some?
    ensures j < |moves| && Surveys(facts, moves, setting, k, j)
    ensures var pc := Run(facts, moves[..j + 1], setting).requests[k].pc;
            Surveyed(Run(facts, moves, setting).requests[k].pc) == Some((pc.snapshot, pc.since))
  {
    var init, last := moves[..|moves| - 1], moves[|moves| - 1];
    Invariant(facts, init, setting);
    EntersBySurvey(Run(facts, init, setting), last, setting, k);
    if Surveyed(Run(facts, init, setting).requests[k].pc).None? {
      j := |moves| - 1;
      assert moves[..j + 1] == moves;
    } else {
      j := SurveyExists(facts, init, setting, k);
      assert init[..j] == moves[..j] && init[..j + 1] == moves[..j + 1];
    }
  }

  /**
   Nothing else mixes versions: if the two tokens differ, another request stored a token of
   the snapshot in between.
   */
  lemma OnlyRestoringMixes(facts: Facts, moves: seq<Move>, setting: Setting, k: nat) returns (j: nat)
    requires EndsUnverified(facts, moves, setting, k)
    ensures j < |moves| && Surveys(facts, moves, setting, k, j)
    ensures var e := Run(facts, moves, setting).requests[k].pc.result;
            e.since != e.until ==>
              exists n :: j < n < |moves| && RestoresAt(facts, moves, setting, k, e.snapshot, n)
  {
    j := SurveyExists(facts, moves, setting, k);
    var e := Run(facts, moves, setting).requests[k].pc.result;
    if forall n :: j < n < |moves| ==> !RestoresAt(facts, moves, setting, k, e.snapshot, n) {
      QuietTokens(facts, moves, setting, k, j);
    }
  }

  /** The move compares the token of a search's last verification with the stored one. */
  predicate Compares(s: System, m: Move, k: nat) {
    && m.Advance? && m.request == k && k < |s.requests|
    && s.requests[k].pc.Comparing? && s.requests[k].pc.stage.After?
  }

  ghost predicate ComparesAt(facts: Facts, moves: seq<Move>, setting: Setting, k: nat, n: nat)
    requires n < |moves|
  {
    Compares(Run(facts, moves[..n], setting), moves[n], k)
  }

  /** The snapshot of a search that ended its first verification has a stored token. */
  predicate TokenStored(s: System, k: nat) {
    k < |s.requests| && Surveyed(s.requests[k].pc).Some? ==> Surveyed(s.requests[k].pc).value.0 in s.fields.tokens
  }

  lemma TokensStay(s: System, m: Move, setting: Setting)
    requires |s.history| > 0
    ensures s.fields.tokens.Keys <= Next(s, m, setting).fields.tokens.Keys
  {
  }

  lemma {:induction false} TokenStaysStored(facts: Facts, moves: seq<Move>, setting: Setting, k: nat)
    ensures TokenStored(Run(facts, moves, setting), k)
  {
    if moves == [] {
    } else {
      var s, t := Run(facts, moves[..|moves| - 1], setting), Run(facts, moves, setting);
      TokenStaysStored(facts, moves[..|moves| - 1], setting, k);
      if k < |t.requests| && Surveyed(t.requests[k].pc).Some? {
        Invariant(facts, moves[..|moves| - 1], setting);
        EntersBySurvey(s, moves[|moves| - 1], setting, k);
        TokensStay(s, moves[|moves| - 1], setting);
        if Surveyed(s.requests[k].pc).None? {
          SurveyStarts(s, moves[|moves| - 1], setting, k);
        }
      }
    }
  }

  lemma AcceptedByComparing(s: System, m: Move, setting: Setting, k: nat)
    requires |s.history| > 0 && k < |s.requests| && TokenStored(s, k) && Surveyed(s.requests[k].pc).Some?
    requires Accepted(Next(s, m, setting).requests[k].pc).Some?
    ensures var pc, after := s.requests[k].pc, Next(s, m, setting).requests[k].pc;
            if Accepted(pc).Some? then Accepted(pc) == Accepted(after)
            else
              && Compares(s, m, k) && pc.snapshot in s.fields.tokens
              && Accepted(after) == Some(s.fields.tokens[pc.snapshot])
  {
  }

  lemma AcceptedIsSurveyed(pc: Pc)
    requires Accepted(pc).Some?
    ensures Surveyed(pc).Some? && !pc.Surveying?
  {
  }

  lemma {:induction false} ComparisonExists(facts: Facts, moves: seq<Move>, setting: Setting, k: nat) returns (n: nat)
    requires var s := Run(facts, moves, setting); k < |s.requests| && Accepted(s.requests[k].pc).Some?
    ensures n < |moves| && ComparesAt(facts, moves, setting, k, n)
    ensures var s, pc := Run(facts, moves[..n], setting), Run(facts, moves, setting).requests[k].pc;
            && Surveyed(s.requests[k].pc) == Surveyed(pc) && Surveyed(pc).Some?
            && s.requests[k].pc.snapshot in s.fields.tokens
            && Accepted(pc) == Some(s.fields.tokens[s.requests[k].pc.snapshot])
  {
    var init, last := moves[..|moves| - 1], moves[|moves| - 1];
    Invariant(facts, init, setting);
    TokenStaysStored(facts, init, setting, k);
    AcceptedIsSurveyed(Run(facts, moves, setting).requests[k].pc);
    EntersBySurvey(Run(facts, init, setting), last, setting, k);
    AcceptedByComparing(Run(facts, init, setting), last, setting, k);
    if Accepted(Run(facts, init, setting).requests[k].pc).None? {
      n := |moves| - 1;
    } else {
      n := ComparisonExists(facts, init, setting, k);
      assert init[..n] == moves[..n];
    }
  }

  /**
   The two tokens differ exactly if the token stored for the snapshot at the search's last
   comparison is no longer its first.
   */
  lemma TokensDifferIff(facts: Facts, moves: seq<Move>, setting: Setting, k: nat) returns (n: nat)
    requires EndsUnverified(facts, moves, setting, k)
    ensures n < |moves| && ComparesAt(facts, moves, setting, k, n)
    ensures var e, tokens :=
            Run(facts, moves, setting).requests[k].pc.result, Run(facts, moves[..n], setting).fields.tokens;
            && e.snapshot in tokens && e.until == tokens[e.snapshot]
            && (e.since != e.until <==> tokens[e.snapshot] != e.since)
  {
    n := ComparisonExists(facts, moves, setting, k);
  }

  // ----- A search that mixes versions -----

  const OLD: Facts := ["a", "old text"]
  const CHANGED: Facts := ["b", "new text"]
  const ACTIVE := Generation("g", 1)
  const QUESTION := Query("q", 1, false)
  const PINNED := Snapshot(ACTIVE, ["a"])
  const FOUND := [Hit("new text", "g")]

  /** Identity is the first entry of the contents; a search finds the second. */
  const SETTING := Setting(
    1,
    (f: Facts, i: nat) => if i < |f| then f[i] else "",
    (g: Generation, f: Facts) => "ok",
    (status: string, q: Query) => false,
    (q: Query, g: Generation, f: Facts) => if |f| > 1 then [Hit(f[1], g.id)] else [],
    (q: Query, g: Generation, f: Facts) => [],
    (documents: seq<Hit>, passages: seq<Hit>, k: int) => documents)

  const JOB := Search(QUESTION, Some(PINNED))
  const GO := Advance(0, false)
  const GO_PIN := Advance(1, false)
  const VERIFIED_OLD := Fields(None, Some(PINNED), map[PINNED := 0], map[])
  const VERIFIED_NEW := Fields(Some(PINNED), Some(PINNED), map[PINNED := 2], map[])

  /** The search alone, and the search waiting with what it found beside a pin. */
  function Alone(history: seq<Facts>, f: Fields, pc: Pc): System {
    System(history, None, f, [Request(JOB, 0, pc)])
  }

  function WithPin(f: Fields, pc: Pc): System {
    System([OLD, CHANGED, OLD], Some(ACTIVE), f,
           [Request(JOB, 0, HasPassages(PINNED, false, Some(0), "ok", FOUND, [])), Request(Pin(true), 2, pc)])
  }

  function Three(s: System, a: Move, b: Move, c: Move): System
    requires |s.history| > 0
  {
    Next(Next(Next(s, a, SETTING), b, SETTING), c, SETTING)
  }

  lemma SearchArrives()
    ensures Three(System([OLD], None, NEW_FIELDS, []), Arrive(JOB), GO, GO) ==
            Alone([OLD], NEW_FIELDS, Verifying(PINNED, Before))
  {
    assert Next(System([OLD], None, NEW_FIELDS, []), Arrive(JOB), SETTING) == Alone([OLD], NEW_FIELDS, Begin);
  }

  lemma SearchScans()
    ensures Three(Alone([OLD], NEW_FIELDS, Verifying(PINNED, Before)), GO, GO, GO) ==
            Alone([OLD], NEW_FIELDS, Rescanning(PINNED, 0, 1, Before))
  {
    assert Next(Alone([OLD], NEW_FIELDS, Comparing(PINNED, 0, Before)), GO, SETTING) ==
           Alone([OLD], NEW_FIELDS, Rescanning(PINNED, 0, 0, Before));
  }

  lemma SearchVerified()
    ensures Three(Alone([OLD], NEW_FIELDS, Rescanning(PINNED, 0, 1, Before)), GO, GO, GO) ==
            Alone([OLD], VERIFIED_OLD, Ready(PINNED, false, Some(0), "ok"))
  {
    assert Next(Alone([OLD], NEW_FIELDS, Confirmed(PINNED, 0, Before)), GO, SETTING) ==
           Alone([OLD], VERIFIED_OLD, Surveying(PINNED, 0));
  }

  lemma SearchReads()
    ensures Three(Alone([OLD], VERIFIED_OLD, Ready(PINNED, false, Some(0), "ok")), Write(CHANGED), GO, GO) ==
            Alone([OLD, CHANGED], VERIFIED_OLD, HasPassages(PINNED, false, Some(0), "ok", FOUND, []))
  {
    assert Next(Alone([OLD, CHANGED], VERIFIED_OLD, Ready(PINNED, false, Some(0), "ok")), GO, SETTING) ==
           Alone([OLD, CHANGED], VERIFIED_OLD, HasDocuments(PINNED, false, Some(0), "ok", FOUND));
  }

  lemma PinArrives()
    ensures Three(Alone([OLD, CHANGED], VERIFIED_OLD, HasPassages(PINNED, false, Some(0), "ok", FOUND, [])),
                  Write(OLD), Activate(Some(ACTIVE)), Arrive(Pin(true))) == WithPin(VERIFIED_OLD, Begin)
  {
  }

  lemma PinOpens()
    ensures Three(WithPin(VERIFIED_OLD, Begin), GO_PIN, GO_PIN, GO_PIN) ==
            WithPin(VERIFIED_OLD, Scanning(ACTIVE, 2, []))
  {
    assert Next(WithPin(VERIFIED_OLD, Chosen(ACTIVE)), GO_PIN, SETTING) == WithPin(VERIFIED_OLD, Opening(ACTIVE));
  }

  lemma PinStores()
    ensures Three(WithPin(VERIFIED_OLD, Scanning(ACTIVE, 2, [])), GO_PIN, GO_PIN, GO_PIN) ==
            WithPin(VERIFIED_NEW, Pinned(PINNED, 2))
  {
    assert [] + [SETTING.part(OLD, 0)] == ["a"];
    assert Next(WithPin(VERIFIED_OLD, Scanning(ACTIVE, 2, ["a"])), GO_PIN, SETTING) ==
           WithPin(VERIFIED_OLD, Rechecked(PINNED, 2));
  }

  lemma SearchEnds()
    ensures var s := Three(WithPin(VERIFIED_NEW, Pinned(PINNED, 2)), GO, GO, GO);
            && s.history == [OLD, CHANGED, OLD] && |s.requests| == 2
            && s.requests[0] == Request(JOB, 0, Done(Evidence(PINNED, FOUND, [], false, "ok", 0, 2)))
  {
    var s := Next(WithPin(VERIFIED_NEW, Pinned(PINNED, 2)), GO, SETTING);
    assert s.requests[0].pc == Verifying(PINNED, After(FOUND, [], 0, "ok"));
    assert Next(s, GO, SETTING).requests[0].pc == Comparing(PINNED, 2, After(FOUND, [], 0, "ok"));
  }

  lemma RunThen(moves: seq<Move>, m: Move)
    ensures Run(OLD, moves + [m], SETTING) == Next(Run(OLD, moves, SETTING), m, SETTING)
  {
    var run := moves + [m];
    assert run[..|run| - 1] == moves && run[|run| - 1] == m;
  }

  lemma RunThree(moves: seq<Move>, a: Move, b: Move, c: Move)
    ensures Run(OLD, moves + [a, b, c], SETTING) == Three(Run(OLD, moves, SETTING), a, b, c)
  {
    RunThen(moves, a);
    RunThen(moves + [a], b);
    RunThen(moves + [a] + [b], c);
    Appended(moves, a, b, c);
  }

  lemma Appended<T>(s: seq<T>, a: T, b: T, c: T)
    ensures s + [a] + [b] + [c] == s + [a, b, c]
  {
  }

  const SEARCH_MOVES := [Arrive(JOB), GO, GO] + [GO, GO, GO] + [GO, GO, GO] + [Write(CHANGED), GO, GO]
  const PIN_MOVES := [Write(OLD), Activate(Some(ACTIVE)), Arrive(Pin(true))] + [GO_PIN, GO_PIN, GO_PIN] +
    [GO_PIN, GO_PIN, GO_PIN]
  const END_MOVES := [GO, GO, GO]

  lemma SearchMoves()
    ensures Run(OLD, SEARCH_MOVES, SETTING) ==
            Alone([OLD, CHANGED], VERIFIED_OLD, HasPassages(PINNED, false, Some(0), "ok", FOUND, []))
  {
    var one := [Arrive(JOB), GO, GO];
    RunThree([], Arrive(JOB), GO, GO);
    assert [] + one == one;
    RunThree(one, GO, GO, GO);
    RunThree(one + [GO, GO, GO], GO, GO, GO);
    RunThree(one + [GO, GO, GO] + [GO, GO, GO], Write(CHANGED), GO, GO);
    SearchArrives();
    SearchScans();
    SearchVerified();
    SearchReads();
  }

  lemma PinMoves(moves: seq<Move>)
    requires Run(OLD, moves, SETTING) ==
             Alone([OLD, CHANGED], VERIFIED_OLD, HasPassages(PINNED, false, Some(0), "ok", FOUND, []))
    ensures Run(OLD, moves + PIN_MOVES, SETTING) == WithPin(VERIFIED_NEW, Pinned(PINNED, 2))
  {
    var one := moves + [Write(OLD), Activate(Some(ACTIVE)), Arrive(Pin(true))];
    RunThree(moves, Write(OLD), Activate(Some(ACTIVE)), Arrive(Pin(true)));
    RunThree(one, GO_PIN, GO_PIN, GO_PIN);
    RunThree(one + [GO_PIN, GO_PIN, GO_PIN], GO_PIN, GO_PIN, GO_PIN);
    assert moves + PIN_MOVES == one + [GO_PIN, GO_PIN, GO_PIN] + [GO_PIN, GO_PIN, GO_PIN];
    PinArrives();
    PinOpens();
    PinStores();
  }

  /**
   Without a verified context a search can return what it read at a version other than both it verified:
   the contents change and change back, and another pin stores the newer token in between.
   */
  lemma UnverifiedSearchMixesVersions()
    ensures var s := Run(OLD, SEARCH_MOVES + PIN_MOVES + END_MOVES, SETTING);
            && |s.requests| == 2 && s.requests[0].pc == Done(Evidence(PINNED, FOUND, [], false, "ok", 0, 2))
            && !ComputedAt(s.history, QUESTION, s.requests[0].pc.result, 0, SETTING)
            && !ComputedAt(s.history, QUESTION, s.requests[0].pc.result, 2, SETTING)
  {
    SearchMoves();
    PinMoves(SEARCH_MOVES);
    RunThree(SEARCH_MOVES + PIN_MOVES, GO, GO, GO);
    SearchEnds();
    assert SETTING.documents(QUESTION, ACTIVE, OLD) == [Hit("old text", "g")];
  }
}
