/** What the memory store promises about every run of commits, projections and crashes. */
module MemoryLaws {
  import opened Wrappers
  import opened MemoryStore

  datatype State = State(store: Store, index: map<string, Payload>, log: seq<nat>)

  /** A committed or refused transaction, or one fetched row treated by any of the replays at work. */
  datatype Move =
    | Commits(user: string, mutations: seq<(Op, Entry)>, event: Option<string>)
    | Treats(row: nat, fate: Fate)

  /** What persisting leaves of a content, and the embedder of the index. */
  datatype Setting = Setting(sanitize: Sanitizer, embedder: Embedder)

  const EMPTY := State(Store(map[], [], {}), map[], [])

  function View(s: State): Projection {
    Projection(s.store.outbox, s.index, s.log)
  }

  function Next(s: State, m: Move, setting: Setting): State {
    match m
    case Commits(user, mutations, event) => s.(store := Commit(s.store, user, mutations, event, setting.sanitize).1)
    case Treats(i, fate) =>
      if i >= |s.store.outbox| then s
      else
        var p := TreatRow(View(s), i, fate, setting.embedder);
        State(s.store.(outbox := p.outbox), p.index, p.log)
  }

  function Run(moves: seq<Move>, setting: Setting): State {
    if moves == [] then EMPTY
    else Next(Run(moves[..|moves| - 1], setting), moves[|moves| - 1], setting)
  }

  /** The run commits only for the given pairs of a user and a fact id. */
  ghost predicate Within(moves: seq<Move>, uses: iset<(string, string)>) {
    forall m :: m in moves && m.Commits? ==> WithinList(m.user, m.mutations, uses)
  }

  ghost predicate WithinList(user: string, mutations: seq<(Op, Entry)>, uses: iset<(string, string)>) {
    forall i :: 0 <= i < |mutations| && mutations[i].1.id.Some? ==> (user, mutations[i].1.id.value) in uses
  }

  /** What the keys of a fact's intents begin with. */
  function Joined(use: (string, string)): string {
    use.0 + ":" + use.1
  }

  /** No two users share a fact id, and no two pairs are joined to the same key. */
  ghost predicate Apart(uses: iset<(string, string)>) {
    forall p, q :: p in uses && q in uses && (p.1 == q.1 || Joined(p) == Joined(q)) ==> p == q
  }

  // ----- The history of a fact -----

  datatype Intent = Intent(user: string, revision: int, op: Op, payload: Payload)

  function IntentOf(r: Row): Intent {
    Intent(r.user, r.revision, r.op, r.payload)
  }

  /** The intents of a fact, in the order they were committed. */
  function History(outbox: seq<Row>, fact: string): seq<Intent> {
    if outbox == [] then []
    else
      var init, last := outbox[..|outbox| - 1], outbox[|outbox| - 1];
      if last.fact == fact then History(init, fact) + [IntentOf(last)] else History(init, fact)
  }

  /**
   The fact exists exactly when it has intents; their revisions run up by one to the stored
   revision, the last one is a delete exactly when the fact is tombstoned, and all are its user's.
   */
  ghost predicate Chained(s: Store, fact: string) {
    var h := History(s.outbox, fact);
    && (fact in s.facts <==> h != [])
    && (fact in s.facts ==>
          var f, last := s.facts[fact], h[|h| - 1];
          && f.payload == last.payload && f.payload.id == fact
          && f.revision == last.revision
          && (f.tombstoned <==> last.op.Delete?)
          && forall k :: 0 <= k < |h| ==>
               h[k].revision == h[0].revision + k == h[k].payload.revision && h[k].user == h[k].payload.user == f.user)
  }

  /** Facts and intents are all of the given pairs. */
  ghost predicate Uses(s: Store, uses: iset<(string, string)>) {
    && (forall id :: id in s.facts ==> (s.facts[id].user, id) in uses)
    && (forall i :: 0 <= i < |s.outbox| ==> (s.outbox[i].user, s.outbox[i].fact) in uses)
  }

  lemma {:induction false} InHistory(outbox: seq<Row>, i: nat)
    requires i < |outbox|
    ensures IntentOf(outbox[i]) in History(outbox, outbox[i].fact)
  {
    if i == |outbox| - 1 {
    } else {
      InHistory(outbox[..|outbox| - 1], i);
    }
  }

  lemma Appended(outbox: seq<Row>, row: Row, fact: string)
    ensures History(outbox + [row], fact) ==
            if row.fact == fact then History(outbox, fact) + [IntentOf(row)] else History(outbox, fact)
  {
    assert (outbox + [row])[..|outbox + [row]| - 1] == outbox;
  }

  /** What a mutation that is not skipped does to a store in which its fact has a chain. */
  lemma MutateAppends(s: Store, user: string, op: Op, entry: Entry, sanitize: Sanitizer, uses: iset<(string, string)>)
    requires entry.id.Some? && (user, entry.id.value) in uses && Chained(s, entry.id.value)
    requires Uses(s, uses) && Apart(uses)
    requires !Repeats(OwnFact(s, user, entry.id.value), op, entry)
    ensures var id, revision := entry.id.value, NextRevision(OwnFact(s, user, entry.id.value), entry);
            var payload := Payload(id, user, revision, sanitize(entry.content));
            Mutate(s, user, op, entry, sanitize) ==
            Some(s.(facts := s.facts[id := Fact(user, revision, payload, op.Delete?)],
                    outbox := s.outbox + [Row(user, id, revision, op, payload, false, 0)]))
  {
    var id, revision := entry.id.value, NextRevision(OwnFact(s, user, entry.id.value), entry);
    NotKnown(s, Row(user, id, revision, op, Payload(id, user, revision, sanitize(entry.content)), false, 0), uses);
  }

  /** A row with the next revision extends the chain of its fact and leaves the others. */
  lemma AppendKeepsChain(s: Store, row: Row, fact: string)
    requires Chained(s, fact) && row.payload.id == row.fact
    requires row.payload.revision == row.revision && row.payload.user == row.user
    requires row.fact == fact && fact in s.facts ==>
               row.revision == s.facts[fact].revision + 1 && row.user == s.facts[fact].user
    ensures Chained(s.(facts := s.facts[row.fact := Fact(row.user, row.revision, row.payload, row.op.Delete?)],
                       outbox := s.outbox + [row]), fact)
  {
    Appended(s.outbox, row, fact);
  }

  /** A mutation keeps every fact's chain. */
  lemma MutateKeepsChain(s: Store, user: string, op: Op, entry: Entry, sanitize: Sanitizer,
                         uses: iset<(string, string)>, fact: string)
    requires entry.id.Some? && (user, entry.id.value) in uses
    requires Chained(s, entry.id.value) && Chained(s, fact) && Uses(s, uses) && Apart(uses)
    requires Mutate(s, user, op, entry, sanitize).Some?
    ensures Chained(Mutate(s, user, op, entry, sanitize).value, fact)
  {
    var id, prior := entry.id.value, OwnFact(s, user, entry.id.value);
    if !Repeats(prior, op, entry) {
      MutateAppends(s, user, op, entry, sanitize, uses);
      var revision := NextRevision(prior, entry);
      AppendKeepsChain(s, Row(user, id, revision, op, Payload(id, user, revision, sanitize(entry.content)), false, 0),
                       fact);
    }
  }

  /** The intent of a new revision is new to the outbox. */
  lemma NotKnown(s: Store, row: Row, uses: iset<(string, string)>)
    requires Chained(s, row.fact) && (row.fact in s.facts ==> row.revision > s.facts[row.fact].revision)
    requires Uses(s, uses) && Apart(uses) && (row.user, row.fact) in uses
    ensures !exists i :: 0 <= i < |s.outbox| && SameKey(s.outbox[i], row)
  {
    forall i | 0 <= i < |s.outbox|
      ensures !SameKey(s.outbox[i], row)
    {
      assert SameKey(s.outbox[i], row) ==> Joined((s.outbox[i].user, s.outbox[i].fact)) == Joined((row.user, row.fact));
      if s.outbox[i].fact == row.fact {
        InHistory(s.outbox, i);
        var h := History(s.outbox, row.fact);
        var k :| 0 <= k < |h| && h[k] == IntentOf(s.outbox[i]);
        assert h[k].revision <= h[|h| - 1].revision;
      }
    }
  }

  lemma {:induction false} ListKeepsUses(s: Store, user: string, mutations: seq<(Op, Entry)>, sanitize: Sanitizer,
                                         uses: iset<(string, string)>)
    requires WithinList(user, mutations, uses) && Uses(s, uses)
    ensures var done := MutateAll(s, user, mutations, sanitize); done.Some? ==> Uses(done.value, uses)
  {
    if mutations == [] {
    } else {
      assert WithinList(user, mutations[..|mutations| - 1], uses);
      ListKeepsUses(s, user, mutations[..|mutations| - 1], sanitize, uses);
    }
  }

  lemma {:induction false} RunUses(moves: seq<Move>, setting: Setting, uses: iset<(string, string)>)
    requires Within(moves, uses)
    ensures Uses(Run(moves, setting).store, uses)
  {
    if moves == [] {
    } else {
      var init, m := moves[..|moves| - 1], moves[|moves| - 1];
      assert Within(init, uses) && m in moves;
      RunUses(init, setting, uses);
      if m.Commits? {
        var store := Run(init, setting).store;
        ListKeepsUses(if m.event.Some? then store.(receipts := store.receipts + {m.event.value}) else store,
                      m.user, m.mutations, setting.sanitize, uses);
      }
    }
  }

  lemma {:induction false} ListKeepsChain(s: Store, user: string, mutations: seq<(Op, Entry)>, sanitize: Sanitizer,
                                          uses: iset<(string, string)>, fact: string)
    requires WithinList(user, mutations, uses) && Apart(uses) && Uses(s, uses) && forall f :: Chained(s, f)
    requires MutateAll(s, user, mutations, sanitize).Some?
    ensures Chained(MutateAll(s, user, mutations, sanitize).value, fact)
  {
    if mutations == [] {
    } else {
      var init, last := mutations[..|mutations| - 1], mutations[|mutations| - 1];
      assert WithinList(user, init, uses);
      ListKeepsChain(s, user, init, sanitize, uses, fact);
      assert last.1.id.Some?;
      ListKeepsChain(s, user, init, sanitize, uses, last.1.id.value);
      ListKeepsUses(s, user, init, sanitize, uses);
      MutateKeepsChain(MutateAll(s, user, init, sanitize).value, user, last.0, last.1, sanitize, uses, fact);
    }
  }

  /** Outboxes that agree but for completion marks and attempt counts. */
  ghost predicate SameIntents(before: seq<Row>, after: seq<Row>) {
    && |before| <= |after|
    && forall i :: 0 <= i < |before| ==> after[i].fact == before[i].fact && IntentOf(after[i]) == IntentOf(before[i])
  }

  lemma {:induction false} SameHistory(before: seq<Row>, after: seq<Row>, fact: string)
    requires |before| == |after| && SameIntents(before, after)
    ensures History(before, fact) == History(after, fact)
  {
    if before == [] {
    } else {
      SameHistory(before[..|before| - 1], after[..|after| - 1], fact);
    }
  }

  /**
   After any run of commits, projections, failures and crashes over pairs kept apart, every
   fact has a gapless history.
   */
  lemma {:induction false} FactsHaveHistories(moves: seq<Move>, setting: Setting, uses: iset<(string, string)>,
                                              fact: string)
    requires Within(moves, uses) && Apart(uses)
    ensures Chained(Run(moves, setting).store, fact)
  {
    if moves == [] {
    } else {
      var init, m := moves[..|moves| - 1], moves[|moves| - 1];
      assert Within(init, uses) && m in moves;
      forall f
        ensures Chained(Run(init, setting).store, f)
      {
        FactsHaveHistories(init, setting, uses, f);
      }
      RunUses(init, setting, uses);
      StepKeepsChain(Run(init, setting), m, setting, uses, fact);
    }
  }

  /** Over pairs kept apart every stored payload can be read after any run, so loading a user's facts never raises. */
  lemma FactsAreReadable(moves: seq<Move>, setting: Setting, uses: iset<(string, string)>)
    requires Within(moves, uses) && Apart(uses)
    ensures var facts := Run(moves, setting).store.facts;
            forall id :: id in facts ==> Readable(facts[id])
  {
    var facts := Run(moves, setting).store.facts;
    forall id | id in facts
      ensures Readable(facts[id])
    {
      FactsHaveHistories(moves, setting, uses, id);
    }
  }

  lemma MarksKeepChain(s: Store, outbox: seq<Row>, fact: string)
    requires Chained(s, fact) && |s.outbox| == |outbox| && SameIntents(s.outbox, outbox)
    ensures Chained(s.(outbox := outbox), fact)
  {
    SameHistory(s.outbox, outbox, fact);
  }

  lemma TreatKeepsIntents(p: Projection, i: nat, fate: Fate, embedder: Embedder)
    requires i < |p.outbox|
    ensures SameIntents(p.outbox, TreatRow(p, i, fate, embedder).outbox)
  {
  }

  lemma TreatKeepsChain(s: State, m: Move, setting: Setting, fact: string)
    requires m.Treats? && Chained(s.store, fact)
    ensures Chained(Next(s, m, setting).store, fact)
  {
    if m.row < |s.store.outbox| {
      TreatKeepsIntents(View(s), m.row, m.fate, setting.embedder);
      MarksKeepChain(s.store, TreatRow(View(s), m.row, m.fate, setting.embedder).outbox, fact);
    }
  }

  lemma StepKeepsChain(s: State, m: Move, setting: Setting, uses: iset<(string, string)>, fact: string)
    requires Uses(s.store, uses) && Apart(uses) && forall f :: Chained(s.store, f)
    requires m.Commits? ==> WithinList(m.user, m.mutations, uses)
    ensures Chained(Next(s, m, setting).store, fact)
  {
    assert Chained(s.store, fact);
    if m.Treats? {
      TreatKeepsChain(s, m, setting, fact);
    } else {
      CommitKeepsChain(s.store, m, setting.sanitize, uses, fact);
    }
  }

  lemma CommitKeepsChain(s: Store, m: Move, sanitize: Sanitizer, uses: iset<(string, string)>, fact: string)
    requires m.Commits? && WithinList(m.user, m.mutations, uses)
    requires Uses(s, uses) && Apart(uses) && forall f :: Chained(s, f)
    ensures Chained(Commit(s, m.user, m.mutations, m.event, sanitize).1, fact)
  {
    var noted := if m.event.Some? then s.(receipts := s.receipts + {m.event.value}) else s;
    forall f
      ensures Chained(noted, f)
    {
      assert Chained(s, f);
    }
    if MutateAll(noted, m.user, m.mutations, sanitize).Some? {
      ListKeepsChain(noted, m.user, m.mutations, sanitize, uses, fact);
    }
  }

  // ----- Exactly when every fact has its history -----

  lemma RunThen(moves: seq<Move>, m: Move, setting: Setting)
    ensures Run(moves + [m], setting) == Next(Run(moves, setting), m, setting)
  {
    assert (moves + [m])[..|moves + [m]| - 1] == moves;
  }

  lemma OneMutation(s: Store, user: string, mutation: (Op, Entry), sanitize: Sanitizer)
    ensures MutateAll(s, user, [mutation], sanitize) == Mutate(s, user, mutation.0, mutation.1, sanitize)
  {
    assert [mutation][..0] == [];
    assert MutateAll(s, user, [], sanitize) == Some(s);
  }

  /** The first save of a fact by a user. */
  function SaveBy(use: (string, string)): Move {
    Commits(use.0, [(Upsert, Entry(Some(use.1), None, Content("", "", "", "")))], None)
  }

  function SavedRow(use: (string, string), sanitize: Sanitizer): Row {
    Row(use.0, use.1, 1, Upsert, Payload(use.1, use.0, 1, sanitize(Content("", "", "", ""))), false, 0)
  }

  lemma SaveStores(s: Store, use: (string, string), sanitize: Sanitizer)
    requires use.1 in s.facts ==> s.facts[use.1].user != use.0
    ensures var row := SavedRow(use, sanitize);
            var known := exists i :: 0 <= i < |s.outbox| && SameKey(s.outbox[i], row);
            var holder := if use.1 in s.facts then s.facts[use.1].user else use.0;
            Commit(s, use.0, SaveBy(use).mutations, None, sanitize) ==
            (true, s.(facts := s.facts[use.1 := Fact(holder, 1, row.payload, false)],
                      outbox := if known then s.outbox else s.outbox + [row]))
  {
    OneMutation(s, use.0, SaveBy(use).mutations[0], sanitize);
  }

  /** Two saves by different pairs: the second intent is dropped exactly if the pairs are joined to one key. */
  lemma TwoUses(setting: Setting, p: (string, string), q: (string, string))
    requires p != q
    ensures var s := Run([SaveBy(p), SaveBy(q)], setting).store;
            && s.outbox == [SavedRow(p, setting.sanitize)] +
               (if Joined(p) == Joined(q) then [] else [SavedRow(q, setting.sanitize)])
            && q.1 in s.facts && s.facts[q.1].payload == SavedRow(q, setting.sanitize).payload
            && s.facts[q.1].revision == 1 && !s.facts[q.1].tombstoned
            && s.facts[q.1].user == if p.1 == q.1 then p.0 else q.0
  {
    RunThen([], SaveBy(p), setting);
    RunThen([SaveBy(p)], SaveBy(q), setting);
    assert [] + [SaveBy(p)] == [SaveBy(p)] && [SaveBy(p)] + [SaveBy(q)] == [SaveBy(p), SaveBy(q)];
    SaveStores(EMPTY.store, p, setting.sanitize);
    var first := Run([SaveBy(p)], setting).store;
    assert first.outbox == [SavedRow(p, setting.sanitize)];
    SaveStores(first, q, setting.sanitize);
    assert SameKey(first.outbox[0], SavedRow(q, setting.sanitize)) <==> Joined(p) == Joined(q);
  }

  lemma HistoryOfTwo(a: Row, b: Row, fact: string)
    ensures History([a], fact) == if a.fact == fact then [IntentOf(a)] else []
    ensures History([a, b], fact) == History([a], fact) + if b.fact == fact then [IntentOf(b)] else []
  {
    assert [a, b][..1] == [a];
  }

  /** Pairs joined to one key: the second fact is stored and live but no intent will project it. */
  lemma SharedKeyLosesIntent(setting: Setting, p: (string, string), q: (string, string))
    requires p.1 != q.1 && Joined(p) == Joined(q)
    ensures var s := Run([SaveBy(p), SaveBy(q)], setting).store;
            && q.1 in s.facts && !s.facts[q.1].tombstoned
            && History(s.outbox, q.1) == [] && !Chained(s, q.1)
  {
    TwoUses(setting, p, q);
    HistoryOfTwo(SavedRow(p, setting.sanitize), SavedRow(q, setting.sanitize), q.1);
  }

  /**
   Two users with one fact id: the second save starts again at the first revision, under a user who
   cannot read it.
   */
  lemma SharedIdBreaksHistory(setting: Setting, p: (string, string), q: (string, string))
    requires p.0 != q.0 && p.1 == q.1
    ensures var s := Run([SaveBy(p), SaveBy(q)], setting).store;
            && q.1 in s.facts && s.facts[q.1].user == p.0 && !Chained(s, q.1)
            && !Readable(s.facts[q.1])
  {
    TwoUses(setting, p, q);
    var a, b := SavedRow(p, setting.sanitize), SavedRow(q, setting.sanitize);
    SameIdKeys(p, q);
    HistoryOfTwo(a, b, q.1);
    assert [a] + [b] == [a, b];
    var h := History([a, b], q.1);
    assert h[0].revision == h[1].revision == 1;
  }

  lemma SameIdKeys(p: (string, string), q: (string, string))
    requires p.1 == q.1 && p.0 != q.0
    ensures Joined(p) != Joined(q)
  {
    assert p.0 == Joined(p)[..|p.0|] && q.0 == Joined(q)[..|q.0|];
  }

  /**
   Every fact has its history after every run over the given pairs of users and fact ids, if and only if
   the pairs are apart: no id of two users, and no two pairs joined to one key.
   */
  lemma HistoriesIff(uses: iset<(string, string)>, setting: Setting)
    ensures (forall moves, fact :: Within(moves, uses) ==> Chained(Run(moves, setting).store, fact)) <==> Apart(uses)
  {
    if Apart(uses) {
      forall moves, fact | Within(moves, uses)
        ensures Chained(Run(moves, setting).store, fact)
      {
        FactsHaveHistories(moves, setting, uses, fact);
      }
    } else {
      var p, q :| p in uses && q in uses && (p.1 == q.1 || Joined(p) == Joined(q)) && p != q;
      if p.1 == q.1 {
        SharedIdBreaksHistory(setting, p, q);
      } else {
        SharedKeyLosesIntent(setting, p, q);
      }
      assert Within([SaveBy(p), SaveBy(q)], uses);
    }
  }

  lemma ColonInside(u: string, f: string, v: string, g: string)
    requires u + ":" + f == v + ":" + g && |u| < |v|
    ensures ':' in f
  {
    assert (v + ":" + g)[|v|] == ':';
    assert (u + ":" + f)[|v|] == f[|v| - |u| - 1];
  }

  /** Ids without a colon can be told apart in joined keys. */
  lemma JoinedApart(u: string, f: string, v: string, g: string)
    requires ':' !in f && ':' !in g && u + ":" + f == v + ":" + g
    ensures u == v && f == g
  {
    if |u| < |v| {
      ColonInside(u, f, v, g);
    } else if |v| < |u| {
      ColonInside(v, g, u, f);
    } else {
      assert u == (u + ":" + f)[..|u|] && v == (v + ":" + g)[..|v|];
      assert f == (u + ":" + f)[|u| + 1..] && g == (v + ":" + g)[|v| + 1..];
    }
  }

  /** Pairs are apart if no id is of two users and no id holds a colon; a single user's always are. */
  lemma PlainIdsApart(uses: iset<(string, string)>)
    requires forall p, q :: p in uses && q in uses && p.1 == q.1 ==> p == q
    requires (forall p :: p in uses ==> ':' !in p.1) || (forall p, q :: p in uses && q in uses ==> p.0 == q.0)
    ensures Apart(uses)
  {
    forall p, q | p in uses && q in uses && Joined(p) == Joined(q)
      ensures p == q
    {
      if p.0 == q.0 {
        assert p.1 == Joined(p)[|p.0| + 1..] && q.1 == Joined(q)[|q.0| + 1..];
      } else {
        JoinedApart(p.0, p.1, q.0, q.1);
      }
    }
  }

  // ----- Events -----

  lemma {:induction false} ReceiptsStay(s: Store, user: string, mutations: seq<(Op, Entry)>, sanitize: Sanitizer)
    requires MutateAll(s, user, mutations, sanitize).Some?
    ensures MutateAll(s, user, mutations, sanitize).value.receipts == s.receipts
  {
    if mutations == [] {
    } else {
      ReceiptsStay(s, user, mutations[..|mutations| - 1], sanitize);
    }
  }

  lemma {:induction false} ReceiptKept(past: seq<Move>, future: seq<Move>, setting: Setting, event: string)
    requires event in Run(past, setting).store.receipts
    ensures event in Run(past + future, setting).store.receipts
  {
    if future == [] {
      assert past + future == past;
    } else {
      var init, m, run := future[..|future| - 1], future[|future| - 1], past + future;
      assert run[..|run| - 1] == past + init && run[|run| - 1] == m;
      ReceiptKept(past, init, setting, event);
      StepKeepsReceipts(Run(past + init, setting), m, setting);
    }
  }

  lemma StepKeepsReceipts(s: State, m: Move, setting: Setting)
    ensures s.store.receipts <= Next(s, m, setting).store.receipts
  {
    if m.Commits? {
      var noted := if m.event.Some? then s.store.(receipts := s.store.receipts + {m.event.value}) else s.store;
      if MutateAll(noted, m.user, m.mutations, setting.sanitize).Some? {
        ReceiptsStay(noted, m.user, m.mutations, setting.sanitize);
      }
    }
  }

  lemma {:induction false} MutationsKeepKeys(s: Store, user: string, mutations: seq<(Op, Entry)>, sanitize: Sanitizer)
    requires Keyed(s.facts)
    ensures var done := MutateAll(s, user, mutations, sanitize); done.Some? ==> Keyed(done.value.facts)
  {
    if mutations == [] {
    } else {
      MutationsKeepKeys(s, user, mutations[..|mutations| - 1], sanitize);
    }
  }

  /** Every fact stays stored under its own id, so recall may rely on it after any run. */
  lemma {:induction false} FactsStayKeyed(moves: seq<Move>, setting: Setting)
    ensures Keyed(Run(moves, setting).store.facts)
  {
    if moves == [] {
    } else {
      var init, m := moves[..|moves| - 1], moves[|moves| - 1];
      FactsStayKeyed(init, setting);
      if m.Commits? {
        var store := Run(init, setting).store;
        MutationsKeepKeys(if m.event.Some? then store.(receipts := store.receipts + {m.event.value}) else store,
                          m.user, m.mutations, setting.sanitize);
      }
    }
  }

  /** An event once applied is applied for good: applying it again, at any later time, changes nothing. */
  lemma EventAppliedOnce(past: seq<Move>, future: seq<Move>, setting: Setting, first: Move, again: Move)
    requires first.Commits? && again.Commits? && first.event.Some? && again.event == first.event
    requires Commit(Run(past, setting).store, first.user, first.mutations, first.event, setting.sanitize).0
    ensures var s := Run(past + [first] + future, setting);
            Next(s, again, setting) == s
  {
    var begun := past + [first];
    assert begun[..|begun| - 1] == past && begun[|begun| - 1] == first;
    var store, event := Run(past, setting).store, first.event.value;
    if event !in store.receipts {
      ReceiptsStay(store.(receipts := store.receipts + {event}), first.user, first.mutations, setting.sanitize);
    }
    ReceiptKept(begun, future, setting, event);
  }

  // ----- The index -----

  function Lookup(index: map<string, Payload>, fact: string): Option<Payload> {
    if fact in index then Some(index[fact]) else None
  }

  /** The vector of a fact after one more row is projected. */
  function With(before: Option<Payload>, row: Row, fact: string, embeds: Payload -> bool): Option<Payload> {
    if row.fact != fact then before
    else if row.op.Delete? then None
    else if embeds(row.payload) then Some(row.payload)
    else before
  }

  /** The vector of a fact after the listed outbox positions were projected in order onto an empty index. */
  function Vector(outbox: seq<Row>, log: seq<nat>, fact: string, embeds: Payload -> bool): Option<Payload>
    requires forall k :: 0 <= k < |log| ==> log[k] < |outbox|
  {
    if log == [] then None
    else With(Vector(outbox, log[..|log| - 1], fact, embeds), outbox[log[|log| - 1]], fact, embeds)
  }

  lemma {:induction false} VectorStable(before: seq<Row>, after: seq<Row>, log: seq<nat>, fact: string,
                                        embeds: Payload -> bool)
    requires SameIntents(before, after) && forall k :: 0 <= k < |log| ==> log[k] < |before|
    ensures Vector(before, log, fact, embeds) == Vector(after, log, fact, embeds)
  {
    if log == [] {
    } else {
      VectorStable(before, after, log[..|log| - 1], fact, embeds);
    }
  }

  lemma {:induction false} ListGrows(s: Store, user: string, mutations: seq<(Op, Entry)>, sanitize: Sanitizer)
    requires MutateAll(s, user, mutations, sanitize).Some?
    ensures var u := MutateAll(s, user, mutations, sanitize).value;
            s.outbox <= u.outbox && forall i :: |s.outbox| <= i < |u.outbox| ==> !u.outbox[i].completed
  {
    if mutations == [] {
    } else {
      ListGrows(s, user, mutations[..|mutations| - 1], sanitize);
    }
  }

  /** A step keeps the intents of the rows there are; rows it adds are pending. */
  lemma StepKeepsIntents(s: State, m: Move, setting: Setting)
    ensures var u := Next(s, m, setting).store.outbox;
            && SameIntents(s.store.outbox, u)
            && (forall i :: |s.store.outbox| <= i < |u| ==> !u[i].completed)
            && (m.Commits? ==> s.store.outbox <= u)
  {
    if m.Commits? {
      var noted := if m.event.Some? then s.store.(receipts := s.store.receipts + {m.event.value}) else s.store;
      if MutateAll(noted, m.user, m.mutations, setting.sanitize).Some? {
        ListGrows(noted, m.user, m.mutations, setting.sanitize);
      }
    }
  }

  ghost predicate LogOk(s: State) {
    && (forall k :: 0 <= k < |s.log| ==> s.log[k] < |s.store.outbox|)
    && (forall i :: 0 <= i < |s.store.outbox| && s.store.outbox[i].completed ==> i in s.log)
  }

  lemma LogStaysOk(s: State, m: Move, setting: Setting)
    requires LogOk(s)
    ensures LogOk(Next(s, m, setting))
  {
    StepKeepsIntents(s, m, setting);
  }

  /** A row marked complete was projected. */
  lemma {:induction false} CompletedAreProjected(moves: seq<Move>, setting: Setting)
    ensures LogOk(Run(moves, setting))
  {
    if moves == [] {
    } else {
      CompletedAreProjected(moves[..|moves| - 1], setting);
      LogStaysOk(Run(moves[..|moves| - 1], setting), moves[|moves| - 1], setting);
    }
  }

  lemma VectorExtended(outbox: seq<Row>, log: seq<nat>, i: nat, fact: string, embeds: Payload -> bool)
    requires i < |outbox| && forall k :: 0 <= k < |log| ==> log[k] < |outbox|
    ensures Vector(outbox, log + [i], fact, embeds) == With(Vector(outbox, log, fact, embeds), outbox[i], fact, embeds)
  {
    assert (log + [i])[..|log + [i]| - 1] == log;
  }

  lemma IndexStep(s: State, m: Move, setting: Setting, fact: string)
    requires setting.embedder.Embedder? && LogOk(s) && LogOk(Next(s, m, setting))
    requires Lookup(s.index, fact) == Vector(s.store.outbox, s.log, fact, setting.embedder.embeds)
    ensures var u := Next(s, m, setting);
            Lookup(u.index, fact) == Vector(u.store.outbox, u.log, fact, setting.embedder.embeds)
  {
    var u, embeds := Next(s, m, setting), setting.embedder.embeds;
    StepKeepsIntents(s, m, setting);
    VectorStable(s.store.outbox, u.store.outbox, u.log, fact, embeds);
    if u.log != s.log {
      ProjectionStep(s, m, setting, fact);
    }
  }

  lemma ProjectionStep(s: State, m: Move, setting: Setting, fact: string)
    requires setting.embedder.Embedder? && LogOk(s) && m.Treats? && m.row < |s.store.outbox|
    requires Next(s, m, setting).log != s.log
    requires Lookup(s.index, fact) == Vector(s.store.outbox, s.log, fact, setting.embedder.embeds)
    ensures var u := Next(s, m, setting);
            u.log == s.log + [m.row]
            && Lookup(u.index, fact) == Vector(s.store.outbox, s.log + [m.row], fact, setting.embedder.embeds)
  {
    VectorExtended(s.store.outbox, s.log, m.row, fact, setting.embedder.embeds);
    assert Next(s, m, setting).index == Project(s.index, s.store.outbox[m.row], setting.embedder);
  }

  /** The index holds what the projections made so far, in their order, leave in it. */
  lemma {:induction false} IndexIsProjection(moves: seq<Move>, setting: Setting, fact: string)
    requires setting.embedder.Embedder?
    ensures LogOk(Run(moves, setting))
    ensures var s := Run(moves, setting);
            Lookup(s.index, fact) == Vector(s.store.outbox, s.log, fact, setting.embedder.embeds)
  {
    CompletedAreProjected(moves, setting);
    if moves == [] {
    } else {
      var init := moves[..|moves| - 1];
      IndexIsProjection(init, setting, fact);
      IndexStep(Run(init, setting), moves[|moves| - 1], setting, fact);
    }
  }

  // ----- When the index agrees with the facts -----

  /** The vector the index should hold for a fact: its payload, if it is live and can be embedded. */
  function Wanted(facts: map<string, Fact>, fact: string, embeds: Payload -> bool): Option<Payload> {
    if fact in facts && !facts[fact].tombstoned && embeds(facts[fact].payload) then Some(facts[fact].payload) else None
  }

  /** Projecting the row settles the vector of the fact, whatever it was: a delete, or an upsert with a vector. */
  predicate Settles(row: Row, fact: string, embeds: Payload -> bool) {
    row.fact == fact && (row.op.Delete? || embeds(row.payload))
  }

  /** The position projected last among those that settle the vector of the fact. */
  function LastSettled(outbox: seq<Row>, log: seq<nat>, fact: string, embeds: Payload -> bool): (last: Option<nat>)
    requires forall k :: 0 <= k < |log| ==> log[k] < |outbox|
    ensures last.Some? ==> last.value < |outbox| && Settles(outbox[last.value], fact, embeds)
  {
    if log == [] then None
    else if Settles(outbox[log[|log| - 1]], fact, embeds) then Some(log[|log| - 1])
    else LastSettled(outbox, log[..|log| - 1], fact, embeds)
  }

  /** The position of the newest intent of the fact. */
  function Newest(outbox: seq<Row>, fact: string): (newest: Option<nat>)
    ensures newest.Some? ==> newest.value < |outbox| && outbox[newest.value].fact == fact
    ensures forall i :: 0 <= i < |outbox| && outbox[i].fact == fact ==> newest.Some? && i <= newest.value
  {
    if outbox == [] then None
    else if outbox[|outbox| - 1].fact == fact then Some(|outbox| - 1)
    else Newest(outbox[..|outbox| - 1], fact)
  }

  predicate HasVector(row: Row, embeds: Payload -> bool) {
    row.op.Upsert? && embeds(row.payload)
  }

  /**
   If the newest intent of the fact has a vector, it is the one that settled the vector last;
   if not, nothing has settled it yet or a delete did last.
   */
  predicate SettledRight(outbox: seq<Row>, log: seq<nat>, fact: string, embeds: Payload -> bool)
    requires forall k :: 0 <= k < |log| ==> log[k] < |outbox|
  {
    var newest, last := Newest(outbox, fact), LastSettled(outbox, log, fact, embeds);
    if newest.Some? && HasVector(outbox[newest.value], embeds) then last == newest
    else last.None? || outbox[last.value].op.Delete?
  }

  lemma {:induction false} VectorIsLastSettled(outbox: seq<Row>, log: seq<nat>, fact: string, embeds: Payload -> bool)
    requires forall k :: 0 <= k < |log| ==> log[k] < |outbox|
    ensures var last := LastSettled(outbox, log, fact, embeds);
            Vector(outbox, log, fact, embeds) ==
            if last.Some? && outbox[last.value].op.Upsert? then Some(outbox[last.value].payload) else None
  {
    if log == [] {
    } else {
      VectorIsLastSettled(outbox, log[..|log| - 1], fact, embeds);
    }
  }

  /** The intent of a row stands in its fact's history after those of the rows before it. */
  lemma {:induction false} HistoryAt(outbox: seq<Row>, i: nat)
    requires i < |outbox|
    ensures var fact := outbox[i].fact;
            |History(outbox[..i], fact)| < |History(outbox, fact)|
            && History(outbox, fact)[|History(outbox[..i], fact)|] == IntentOf(outbox[i])
  {
    if i == |outbox| - 1 {
    } else {
      var init := outbox[..|outbox| - 1];
      assert init[..i] == outbox[..i];
      HistoryAt(init, i);
    }
  }

  lemma HistoryOfPrefix(outbox: seq<Row>, i: nat, j: nat)
    requires i < j < |outbox|
    ensures |History(outbox[..i], outbox[i].fact)| < |History(outbox[..j], outbox[i].fact)|
  {
    assert outbox[..j][..i] == outbox[..i];
    HistoryAt(outbox[..j], i);
  }

  /** Later intents of a fact have greater revisions, and so different payloads. */
  lemma RevisionsRise(s: Store, i: nat, j: nat)
    requires i < j < |s.outbox| && s.outbox[i].fact == s.outbox[j].fact && Chained(s, s.outbox[i].fact)
    ensures s.outbox[i].payload.revision < s.outbox[j].payload.revision
  {
    HistoryAt(s.outbox, i);
    HistoryAt(s.outbox, j);
    HistoryOfPrefix(s.outbox, i, j);
  }

  /** The fact's state is that of its newest intent. */
  lemma NewestIsStored(s: Store, fact: string)
    requires Chained(s, fact)
    ensures var newest := Newest(s.outbox, fact);
            && (newest.Some? <==> fact in s.facts)
            && (newest.Some? ==>
                  && s.facts[fact].payload == s.outbox[newest.value].payload
                  && (s.facts[fact].tombstoned <==> s.outbox[newest.value].op.Delete?))
  {
    NewestEndsHistory(s.outbox, fact);
  }

  lemma {:induction false} NewestEndsHistory(outbox: seq<Row>, fact: string)
    ensures var newest, h := Newest(outbox, fact), History(outbox, fact);
            && (newest.Some? <==> h != [])
            && (newest.Some? ==> h[|h| - 1] == IntentOf(outbox[newest.value]))
  {
    if outbox == [] {
    } else {
      NewestEndsHistory(outbox[..|outbox| - 1], fact);
    }
  }

  lemma WantedIffSettledRight(s: Store, log: seq<nat>, fact: string, embeds: Payload -> bool)
    requires forall k :: 0 <= k < |log| ==> log[k] < |s.outbox|
    requires Chained(s, fact)
    ensures Vector(s.outbox, log, fact, embeds) == Wanted(s.facts, fact, embeds) <==>
            SettledRight(s.outbox, log, fact, embeds)
  {
    VectorIsLastSettled(s.outbox, log, fact, embeds);
    NewestIsStored(s, fact);
    var newest, last := Newest(s.outbox, fact), LastSettled(s.outbox, log, fact, embeds);
    if newest.Some? && last.Some? && last != newest {
      RevisionsRise(s, last.value, newest.value);
    }
  }

  /**
   If the stored fact should have a vector, the row that settled the vector last is an upsert with the
   stored payload; if not, nothing has settled it yet or a delete did last.
   */
  predicate SettledAsStored(s: Store, log: seq<nat>, fact: string, embeds: Payload -> bool)
    requires forall k :: 0 <= k < |log| ==> log[k] < |s.outbox|
  {
    var last := LastSettled(s.outbox, log, fact, embeds);
    if Wanted(s.facts, fact, embeds).Some? then
      last.Some? && s.outbox[last.value].op.Upsert? && s.outbox[last.value].payload == s.facts[fact].payload
    else last.None? || s.outbox[last.value].op.Delete?
  }

  /**
   In every run, whatever the order of projections, failures and crashes and whatever the ids, the index
   holds exactly the wanted vector of a fact if and only if the vector was settled last as it is stored; where
   the fact has its history, if and only if the newest row settled it.
   */
  lemma {:induction false} IndexAgreesIff(moves: seq<Move>, setting: Setting, fact: string)
    requires setting.embedder.Embedder?
    ensures LogOk(Run(moves, setting))
    ensures var s, embeds := Run(moves, setting), setting.embedder.embeds;
            Lookup(s.index, fact) == Wanted(s.store.facts, fact, embeds) <==>
            SettledAsStored(s.store, s.log, fact, embeds)
    ensures var s, embeds := Run(moves, setting), setting.embedder.embeds;
            Chained(s.store, fact) ==>
              (SettledAsStored(s.store, s.log, fact, embeds) <==> SettledRight(s.store.outbox, s.log, fact, embeds))
  {
    var s := Run(moves, setting);
    IndexIsProjection(moves, setting, fact);
    VectorIsLastSettled(s.store.outbox, s.log, fact, setting.embedder.embeds);
    if Chained(s.store, fact) {
      WantedIffSettledRight(s.store, s.log, fact, setting.embedder.embeds);
    }
  }

  // ----- Drained outboxes -----

  /** Every pending intent of the fact has been projected and marked. */
  ghost predicate Drained(outbox: seq<Row>, fact: string) {
    forall i :: 0 <= i < |outbox| && outbox[i].fact == fact ==> outbox[i].completed
  }

  /** The rows of the fact were projected in the order of their revisions, each perhaps several times in a row. */
  ghost predicate InOrder(outbox: seq<Row>, log: seq<nat>, fact: string)
    requires forall k :: 0 <= k < |log| ==> log[k] < |outbox|
  {
    forall j, k :: 0 <= j < k < |log| && outbox[log[j]].fact == fact && outbox[log[k]].fact == fact ==> log[j] <= log[k]
  }

  /** An intent with a vector has newer ones after it, all of them upserts without a vector. */
  ghost predicate LeavesStale(outbox: seq<Row>, fact: string, embeds: Payload -> bool) {
    exists i :: Superseded(outbox, i, fact, embeds)
  }

  predicate Superseded(outbox: seq<Row>, i: int, fact: string, embeds: Payload -> bool) {
    && 0 <= i < |outbox| && outbox[i].fact == fact && HasVector(outbox[i], embeds)
    && (exists j :: i < j < |outbox| && outbox[j].fact == fact)
    && forall j :: i < j < |outbox| ==> !Settles(outbox[j], fact, embeds)
  }

  /** Projected in order, the row that settled the vector last is the newest one projected that settles it. */
  lemma {:induction false} InOrderSettles(outbox: seq<Row>, log: seq<nat>, fact: string, embeds: Payload -> bool,
                                          k: nat)
    requires forall j :: 0 <= j < |log| ==> log[j] < |outbox|
    requires InOrder(outbox, log, fact) && k < |log| && Settles(outbox[log[k]], fact, embeds)
    ensures var last := LastSettled(outbox, log, fact, embeds); last.Some? && log[k] <= last.value
  {
    var init := log[..|log| - 1];
    if Settles(outbox[log[|log| - 1]], fact, embeds) {
    } else {
      assert forall j :: 0 <= j < |init| ==> init[j] == log[j];
      InOrderSettles(outbox, init, fact, embeds, k);
    }
  }

  /**
   Once the intents of a fact with its history are drained, having been projected in revision order whatever the
   crashes in between, the index holds exactly the wanted vector of the fact if and only if
   its history leaves no stale one.
   */
  lemma DrainedIndexAgrees(moves: seq<Move>, setting: Setting, fact: string)
    requires setting.embedder.Embedder? && LogOk(Run(moves, setting)) && Chained(Run(moves, setting).store, fact)
    requires var s := Run(moves, setting);
             Drained(s.store.outbox, fact) && InOrder(s.store.outbox, s.log, fact)
    ensures var s, embeds := Run(moves, setting), setting.embedder.embeds;
            Lookup(s.index, fact) == Wanted(s.store.facts, fact, embeds) <==>
            !LeavesStale(s.store.outbox, fact, embeds)
  {
    var s, embeds := Run(moves, setting), setting.embedder.embeds;
    IndexAgreesIff(moves, setting, fact);
    forall i | 0 <= i < |s.store.outbox| && Settles(s.store.outbox[i], fact, embeds)
      ensures var last := LastSettled(s.store.outbox, s.log, fact, embeds); last.Some? && i <= last.value
    {
      var k :| 0 <= k < |s.log| && s.log[k] == i;
      InOrderSettles(s.store.outbox, s.log, fact, embeds, k);
    }
    NewestSettled(s.store.outbox, s.log, fact, embeds);
  }

  /**
   If the newest row that settles the vector settled it last, it is the right one exactly if
   no intent is superseded.
   */
  lemma NewestSettled(outbox: seq<Row>, log: seq<nat>, fact: string, embeds: Payload -> bool)
    requires forall k :: 0 <= k < |log| ==> log[k] < |outbox|
    requires forall i :: 0 <= i < |outbox| && Settles(outbox[i], fact, embeds) ==>
               var last := LastSettled(outbox, log, fact, embeds); last.Some? && i <= last.value
    ensures SettledRight(outbox, log, fact, embeds) <==> !LeavesStale(outbox, fact, embeds)
  {
    var newest, last := Newest(outbox, fact), LastSettled(outbox, log, fact, embeds);
    if newest.Some? && last.Some? && last != newest {
      assert Superseded(outbox, last.value, fact, embeds) <==> outbox[last.value].op.Upsert?;
    }
    forall i | Superseded(outbox, i, fact, embeds)
      ensures last == Some(i) && newest != last
    {
    }
  }

  // ----- Passes that keep the order -----

  /** The row treated is the oldest pending one, and no exception lets the pass go on without it. */
  ghost predicate Orderly(moves: seq<Move>, setting: Setting) {
    forall k :: 0 <= k < |moves| && moves[k].Treats? ==>
      && Oldest(Run(moves[..k], setting).store.outbox, moves[k].row)
      && !moves[k].fate.Raised?
  }

  predicate Oldest(outbox: seq<Row>, i: nat) {
    i < |outbox| && !outbox[i].completed && forall j :: 0 <= j < i ==> outbox[j].completed
  }

  /** Positions in the log never decrease and never pass the oldest pending row. */
  ghost predicate LogRises(s: State) {
    && (forall j, k :: 0 <= j < k < |s.log| ==> s.log[j] <= s.log[k])
    && (forall k, i :: 0 <= k < |s.log| && 0 <= i < s.log[k] && i < |s.store.outbox| ==> s.store.outbox[i].completed)
  }

  lemma LogRisesStep(s: State, m: Move, setting: Setting)
    requires LogOk(s) && LogRises(s)
    requires m.Treats? ==> Oldest(s.store.outbox, m.row) && !m.fate.Raised?
    ensures LogRises(Next(s, m, setting))
  {
    StepKeepsIntents(s, m, setting);
  }

  lemma OrderlyInit(moves: seq<Move>, m: Move, setting: Setting)
    requires Orderly(moves + [m], setting)
    ensures Orderly(moves, setting)
    ensures m.Treats? ==> Oldest(Run(moves, setting).store.outbox, m.row) && !m.fate.Raised?
  {
    var all := moves + [m];
    forall k | 0 <= k < |moves| && moves[k].Treats?
      ensures Oldest(Run(moves[..k], setting).store.outbox, moves[k].row) && !moves[k].fate.Raised?
    {
      assert all[..k] == moves[..k] && all[k] == moves[k];
    }
    assert all[..|moves|] == moves && all[|moves|] == m;
  }

  lemma {:induction false} OrderlyLogRises(moves: seq<Move>, setting: Setting)
    requires Orderly(moves, setting)
    ensures LogOk(Run(moves, setting)) && LogRises(Run(moves, setting))
  {
    CompletedAreProjected(moves, setting);
    if moves == [] {
    } else {
      var init, m := moves[..|moves| - 1], moves[|moves| - 1];
      assert moves == init + [m];
      OrderlyInit(init, m, setting);
      OrderlyLogRises(init, setting);
      LogRisesStep(Run(init, setting), m, setting);
    }
  }

  /** Passes that take the oldest pending row first and meet no exception, whatever the crashes, project in order. */
  lemma OrderlyPassesAgree(moves: seq<Move>, setting: Setting, fact: string)
    requires setting.embedder.Embedder? && Orderly(moves, setting) && Chained(Run(moves, setting).store, fact)
    requires Drained(Run(moves, setting).store.outbox, fact)
    ensures var s, embeds := Run(moves, setting), setting.embedder.embeds;
            Lookup(s.index, fact) == Wanted(s.store.facts, fact, embeds) <==>
            !LeavesStale(s.store.outbox, fact, embeds)
  {
    OrderlyLogRises(moves, setting);
    DrainedIndexAgrees(moves, setting, fact);
  }

  // ----- Two runs that leave the index wrong -----

  function Save(value: string): Move {
    Commits("u", [(Upsert, Entry(Some("f"), None, Content(value, "", "", "")))], None)
  }

  /** Two versions of a fact, saved one after the other. */
  lemma TwoSaves(first: string, second: string, setting: Setting)
    ensures var s := Run([Save(first), Save(second)], setting);
            && |s.store.outbox| == 2 && s.index == map[] && s.log == []
            && (forall i :: 0 <= i < 2 ==>
                  && s.store.outbox[i].fact == "f" && s.store.outbox[i].op.Upsert? && !s.store.outbox[i].completed
                  && s.store.outbox[i].revision == i + 1
                  && s.store.outbox[i].payload ==
                     Payload("f", "u", i + 1, setting.sanitize(Content([first, second][i], "", "", ""))))
            && s.store.facts == map["f" := Fact("u", 2, s.store.outbox[1].payload, false)]
  {
    RunThen([], Save(first), setting);
    RunThen([Save(first)], Save(second), setting);
    assert [] + [Save(first)] == [Save(first)] && [Save(first)] + [Save(second)] == [Save(first), Save(second)];
    OneSave(EMPTY.store, first, setting.sanitize);
    OneSave(Run([Save(first)], setting).store, second, setting.sanitize);
  }

  lemma OneSave(s: Store, value: string, sanitize: Sanitizer)
    requires "f" in s.facts ==> s.facts["f"].user == "u"
    requires forall i :: 0 <= i < |s.outbox| ==>
               && s.outbox[i].fact == "f" && "f" in s.facts
               && s.outbox[i].revision <= s.facts["f"].revision
    ensures var revision := if "f" in s.facts then s.facts["f"].revision + 1 else 1;
            var payload := Payload("f", "u", revision, sanitize(Content(value, "", "", "")));
            Commit(s, "u", Save(value).mutations, None, sanitize) ==
            (true, s.(facts := s.facts["f" := Fact("u", revision, payload, false)],
                      outbox := s.outbox + [Row("u", "f", revision, Upsert, payload, false, 0)]))
  {
    var mutations := Save(value).mutations;
    assert mutations[..0] == [];
    assert MutateAll(s, "u", mutations, sanitize) == Mutate(s, "u", mutations[0].0, mutations[0].1, sanitize);
  }

  /**
   An exception lets the second version be projected before the first: the pass after it
   drains the outbox and leaves the first version's vector for a fact at its second.
   */
  lemma OutOfOrderLeavesOldVector(setting: Setting, first: string, second: string)
    requires setting.embedder.Embedder? && forall p :: setting.embedder.embeds(p)
    requires setting.sanitize(Content(first, "", "", "")) != setting.sanitize(Content(second, "", "", ""))
    ensures var s :=
            Run([Save(first), Save(second), Treats(0, Raised(false)), Treats(1, Done), Treats(0, Done)], setting);
            && Drained(s.store.outbox, "f") && "f" in s.index && "f" in s.store.facts
            && s.index["f"].revision == 1 && s.store.facts["f"].revision == 2
  {
    TwoSaves(first, second, setting);
    var a := [Save(first), Save(second)];
    RunThen(a, Treats(0, Raised(false)), setting);
    RunThen(a + [Treats(0, Raised(false))], Treats(1, Done), setting);
    RunThen(a + [Treats(0, Raised(false))] + [Treats(1, Done)], Treats(0, Done), setting);
    assert [Save(first), Save(second), Treats(0, Raised(false)), Treats(1, Done), Treats(0, Done)] ==
           a + [Treats(0, Raised(false))] + [Treats(1, Done)] + [Treats(0, Done)];
  }

  /** A version that cannot be embedded leaves the vector of the version before it, even when all goes in order. */
  lemma UnembeddableLeavesOldVector(setting: Setting, first: string, second: string)
    requires setting.embedder.Embedder?
    requires setting.embedder.embeds(Payload("f", "u", 1, setting.sanitize(Content(first, "", "", ""))))
    requires !setting.embedder.embeds(Payload("f", "u", 2, setting.sanitize(Content(second, "", "", ""))))
    ensures var s := Run([Save(first), Save(second), Treats(0, Done), Treats(1, Done)], setting);
            && Drained(s.store.outbox, "f") && "f" in s.index && "f" in s.store.facts
            && s.index["f"].revision == 1 && s.store.facts["f"].revision == 2
  {
    TwoSaves(first, second, setting);
    var a := [Save(first), Save(second)];
    RunThen(a, Treats(0, Done), setting);
    RunThen(a + [Treats(0, Done)], Treats(1, Done), setting);
    assert [Save(first), Save(second), Treats(0, Done), Treats(1, Done)] == a + [Treats(0, Done)] + [Treats(1, Done)];
  }
}
