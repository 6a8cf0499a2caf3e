/** What a commit writes, what a user's facts are afterwards, and what a pass over the outbox completes. */
module MemoryReads {
  import opened Wrappers
  import opened TableSums
  import opened MemoryStore
  import opened MemoryLaws

  // ----- The live facts -----

  /**
   After any run over pairs kept apart, the facts loaded for a user are exactly the payloads of the last
   intents of that user's facts, where those are not deletes: a deleted fact is never loaded.
   */
  lemma LoadedAreLastUpserts(moves: seq<Move>, setting: Setting, uses: iset<(string, string)>, user: string, p: Payload)
    requires Within(moves, uses) && Apart(uses)
    ensures var s := Run(moves, setting).store;
            var h := History(s.outbox, p.id);
            p in LivePayloads(s.facts, user) <==>
            && |h| > 0 && h[|h| - 1].op.Upsert? && h[|h| - 1].user == user && h[|h| - 1].payload == p
  {
    var s := Run(moves, setting).store;
    FactsHaveHistories(moves, setting, uses, p.id);
    FactsStayKeyed(moves, setting);
    if p in LivePayloads(s.facts, user) {
      var id :| id in s.facts && s.facts[id].user == user && !s.facts[id].tombstoned && s.facts[id].payload == p;
      assert id == p.id;
    }
  }

  // ----- One mutation -----

  /** The fact the user has under an id. */
  predicate HasFact(s: Store, user: string, id: string) {
    id in s.facts && s.facts[id].user == user
  }

  /** An explicit save that carries an operation id. */
  predicate Explicit(entry: Entry) {
    entry.content.relation == "explicit_memory" && entry.content.operationId != ""
  }

  /** An intent with this user, fact, revision and operation is in the outbox, as far as its key can tell. */
  predicate KeyTaken(outbox: seq<Row>, user: string, id: string, revision: int, op: Op) {
    exists i :: 0 <= i < |outbox|
                && outbox[i].user + ":" + outbox[i].fact == user + ":" + id
                && outbox[i].revision == revision && outbox[i].op == op
  }

  /** The store after a new version of a fact is written: the fact, and a pending intent unless its key is taken. */
  predicate Writes(s: Store, t: Store, user: string, op: Op, id: string, revision: int, content: Content) {
    var payload := Payload(id, user, revision, content);
    && t.facts == s.facts[id := Fact(if id in s.facts then s.facts[id].user else user, revision, payload, op == Delete)]
    && t.receipts == s.receipts
    && t.outbox == s.outbox + (if KeyTaken(s.outbox, user, id, revision, op) then []
                               else [Row(user, id, revision, op, payload, false, 0)])
  }

  /** What one mutation does: it raises, is skipped as a repetition, or writes the next revision of its fact. */
  lemma MutationDecides(s: Store, user: string, op: Op, entry: Entry, sanitize: Sanitizer)
    ensures var (done, t) := Commit(s, user, [(op, entry)], None, sanitize);
            if entry.id.None? then !done && t == s
            else
              var id := entry.id.value;
              var own := HasFact(s, user, id);
              if own && Explicit(entry) && s.facts[id].payload.user != user then !done && t == s
              else if own && Explicit(entry) && op == Upsert
                      && s.facts[id].payload.content.operationId == entry.content.operationId
                      && s.facts[id].payload.content.value == entry.content.value then done && t == s
              else
                var revision := if own then s.facts[id].revision + 1
                                else match entry.revision { case Some(given) => given case None => 1 };
                done && Writes(s, t, user, op, id, revision, sanitize(entry.content))
  {
    OneMutation(s, user, (op, entry), sanitize);
    if entry.id.Some? {
      var id, prior := entry.id.value, OwnFact(s, user, entry.id.value);
      var revision := NextRevision(prior, entry);
      var row := Row(user, id, revision, op, Payload(id, user, revision, sanitize(entry.content)), false, 0);
      assert (exists i :: 0 <= i < |s.outbox| && SameKey(s.outbox[i], row)) <==>
             KeyTaken(s.outbox, user, id, revision, op);
    }
  }

  /**
   An explicit save made again leaves the store as the first one did, if and only if what was persisted still
   has its operation id and value; otherwise it writes another revision of the same fact.
   */
  lemma RepeatedSaveIff(s: Store, user: string, entry: Entry, sanitize: Sanitizer)
    requires entry.id.Some? && Explicit(entry)
    requires entry.id.value in s.facts ==>
               s.facts[entry.id.value].user == user && s.facts[entry.id.value].payload.user == user
    ensures var id := entry.id.value;
            var (once, t) := Commit(s, user, [(Upsert, entry)], None, sanitize);
            var (twice, u) := Commit(t, user, [(Upsert, entry)], None, sanitize);
            && once && twice && id in t.facts
            && (t != s ==> t.facts[id].payload.content == sanitize(entry.content))
            && (u == t <==> t.facts[id].payload.content.operationId == entry.content.operationId
                            && t.facts[id].payload.content.value == entry.content.value)
            && (u != t ==> id in u.facts && u.facts[id].revision == t.facts[id].revision + 1)
  {
    MutationDecides(s, user, Upsert, entry, sanitize);
    MutationDecides(Commit(s, user, [(Upsert, entry)], None, sanitize).1, user, Upsert, entry, sanitize);
  }

  /** A save with another value or operation id, or one that is not explicit, always makes the next revision. */
  lemma ChangedSaveWrites(s: Store, user: string, entry: Entry, sanitize: Sanitizer)
    requires entry.id.Some? && HasFact(s, user, entry.id.value) && s.facts[entry.id.value].payload.user == user
    requires !Explicit(entry)
             || s.facts[entry.id.value].payload.content.value != entry.content.value
             || s.facts[entry.id.value].payload.content.operationId != entry.content.operationId
    ensures var id := entry.id.value;
            var (done, t) := Commit(s, user, [(Upsert, entry)], None, sanitize);
            && done && id in t.facts && t.facts[id].revision == s.facts[id].revision + 1 && !t.facts[id].tombstoned
            && t.facts[id].payload == Payload(id, user, s.facts[id].revision + 1, sanitize(entry.content))
  {
    MutationDecides(s, user, Upsert, entry, sanitize);
  }

  // ----- Lists and events -----

  lemma {:induction false} ListInTwo(s: Store, user: string, a: seq<(Op, Entry)>, b: seq<(Op, Entry)>,
                                     sanitize: Sanitizer)
    ensures MutateAll(s, user, a + b, sanitize) ==
            var before := MutateAll(s, user, a, sanitize);
            if before.None? then None else MutateAll(before.value, user, b, sanitize)
  {
    if b == [] {
      assert a + b == a;
    } else {
      var init := b[..|b| - 1];
      assert (a + b)[..|a + b| - 1] == a + init;
      ListInTwo(s, user, a, init, sanitize);
    }
  }

  /** The mutations of one transaction act one after the other, and if one raises none of them takes effect. */
  lemma TransactionIsSequence(s: Store, user: string, a: seq<(Op, Entry)>, b: seq<(Op, Entry)>, sanitize: Sanitizer)
    ensures var (first, t) := Commit(s, user, a, None, sanitize);
            var (second, u) := Commit(t, user, b, None, sanitize);
            Commit(s, user, a + b, None, sanitize) == if first && second then (true, u) else (false, s)
  {
    ListInTwo(s, user, a, b, sanitize);
  }

  /** An event is applied as its mutations are, once, and leaves its receipt exactly if they are committed. */
  lemma EventDecides(s: Store, user: string, mutations: seq<(Op, Entry)>, event: string, sanitize: Sanitizer)
    ensures var (done, t) := Commit(s, user, mutations, Some(event), sanitize);
            var (plain, u) := Commit(s, user, mutations, None, sanitize);
            if event in s.receipts then done && t == s
            else if plain then done && t == u.(receipts := u.receipts + {event})
            else !done && t == s
  {
    var noted := s.(receipts := s.receipts + {event});
    ReceiptsApart(s, user, mutations, s.receipts + {event}, sanitize);
    if MutateAll(s, user, mutations, sanitize).Some? {
      ReceiptsStay(s, user, mutations, sanitize);
    }
  }

  lemma {:induction false} ReceiptsApart(s: Store, user: string, mutations: seq<(Op, Entry)>, receipts: set<string>,
                                         sanitize: Sanitizer)
    ensures MutateAll(s.(receipts := receipts), user, mutations, sanitize) ==
            match MutateAll(s, user, mutations, sanitize)
            case None => None
            case Some(t) => Some(t.(receipts := receipts))
  {
    if mutations == [] {
    } else {
      ReceiptsApart(s, user, mutations[..|mutations| - 1], receipts, sanitize);
    }
  }

  // ----- Passes -----

  /** How treating a fetched row ends: what becomes of the row and of the index. */
  lemma TreatmentDecides(p: Projection, i: nat, fate: Fate, embedder: Embedder)
    requires i < |p.outbox| && !p.outbox[i].completed
    ensures var q, row := TreatRow(p, i, fate, embedder), p.outbox[i];
            var projected := fate.Done? || fate.projected;
            && q.outbox == (if fate.Crashed? then p.outbox
                            else p.outbox[i := row.(completed := fate.Done?, attempts := row.attempts + 1)])
            && q.log == (if projected then p.log + [i] else p.log)
            && (!projected || embedder.NoEmbedder? ==> q.index == p.index)
            && (projected && embedder.Embedder? ==>
                  && (row.op == Delete ==> q.index == p.index - {row.fact})
                  && (row.op == Upsert && embedder.embeds(row.payload) ==> q.index == p.index[row.fact := row.payload])
                  && (row.op == Upsert && !embedder.embeds(row.payload) ==> q.index == p.index))
  {
  }

  /** A row that another pass has completed meanwhile is not completed again; an exception still counts an attempt. */
  lemma TreatedAgain(p: Projection, i: nat, fate: Fate, embedder: Embedder)
    requires i < |p.outbox| && p.outbox[i].completed
    ensures TreatRow(p, i, fate, embedder).outbox ==
            if fate.Raised? then p.outbox[i := p.outbox[i].(attempts := p.outbox[i].attempts + 1)] else p.outbox
  {
  }

  function CompletedRows(outbox: seq<Row>): set<nat> {
    set i: nat | i < |outbox| && outbox[i].completed
  }

  /** The rows fetched that were projected and marked before a crash ended the pass, if one did. */
  function Marks(picked: seq<nat>, fates: seq<Fate>): set<nat>
    requires |picked| == |fates|
  {
    set k | 0 <= k < |picked| && fates[k].Done? && (forall j :: 0 <= j < k ==> !fates[j].Crashed?) :: picked[k]
  }

  lemma MarksSplit(picked: seq<nat>, fates: seq<Fate>)
    requires |picked| == |fates| && picked != []
    ensures Marks(picked, fates) ==
            (if fates[0].Done? then {picked[0]} else {}) +
            (if fates[0].Crashed? then {} else Marks(picked[1..], fates[1..]))
  {
    var rest := if fates[0].Crashed? then {} else Marks(picked[1..], fates[1..]);
    forall i | i in rest
      ensures i in Marks(picked, fates)
    {
      var k :| 0 <= k < |picked| - 1 && fates[1..][k].Done? && picked[1..][k] == i
               && forall j :: 0 <= j < k ==> !fates[1..][j].Crashed?;
      assert picked[k + 1] == i && fates[k + 1].Done?;
      assert forall j :: 0 < j < k + 1 ==> fates[j] == fates[1..][j - 1];
    }
    forall i | i in Marks(picked, fates)
      ensures i in (if fates[0].Done? then {picked[0]} else {}) + rest
    {
      var k :| 0 <= k < |picked| && fates[k].Done? && picked[k] == i && forall j :: 0 <= j < k ==> !fates[j].Crashed?;
      if k > 0 {
        assert fates[1..][k - 1].Done? && picked[1..][k - 1] == i;
        assert forall j :: 0 <= j < k - 1 ==> fates[1..][j] == fates[j + 1];
      }
    }
  }

  /** The rows picked are pending ones, each once. */
  predicate Pending(outbox: seq<Row>, picked: seq<nat>) {
    && (forall k :: 0 <= k < |picked| ==> picked[k] < |outbox| && !outbox[picked[k]].completed)
    && (forall k, l :: 0 <= k < l < |picked| ==> picked[k] != picked[l])
  }

  /** What a pass fetches: pending rows, each once, as many as the limit allows or all there are. */
  lemma FetchedArePending(outbox: seq<Row>, picked: seq<nat>, limit: nat)
    ensures Fetch(outbox, picked, limit) <==>
            && Pending(outbox, picked) && |picked| <= limit
            && (|picked| == limit || forall i: nat :: i < |outbox| && i !in picked ==> outbox[i].completed)
  {
  }

  /** A pass over pending rows completes exactly those it projected and marked, and counts them. */
  lemma PassCompletes(p: Projection, picked: seq<nat>, fates: seq<Fate>, embedder: Embedder)
    requires |picked| == |fates| && Pending(p.outbox, picked)
    ensures CompletedRows(Replayed(p, picked, fates, embedder).outbox) == CompletedRows(p.outbox) + Marks(picked, fates)
    ensures CompletedCount(fates) == |Marks(picked, fates)|
  {
    PassMarks(p, picked, fates, embedder);
    MarksCounted(p.outbox, picked, fates);
  }

  lemma {:induction false} PassMarks(p: Projection, picked: seq<nat>, fates: seq<Fate>, embedder: Embedder)
    requires |picked| == |fates| && Pending(p.outbox, picked)
    ensures CompletedRows(Replayed(p, picked, fates, embedder).outbox) == CompletedRows(p.outbox) + Marks(picked, fates)
    decreases |picked|
  {
    if picked == [] {
    } else {
      var q := TreatRow(p, picked[0], fates[0], embedder);
      RowCompletes(p, picked[0], fates[0], embedder);
      MarksSplit(picked, fates);
      if fates[0].Crashed? {
      } else {
        RestPending(p.outbox, q.outbox, picked);
        PassMarks(q, picked[1..], fates[1..], embedder);
      }
    }
  }

  lemma RestPending(outbox: seq<Row>, after: seq<Row>, picked: seq<nat>)
    requires picked != [] && Pending(outbox, picked) && |after| == |outbox|
    requires forall k :: 0 <= k < |outbox| && k != picked[0] ==> after[k].completed == outbox[k].completed
    ensures Pending(after, picked[1..])
  {
  }

  lemma {:induction false} MarksCounted(outbox: seq<Row>, picked: seq<nat>, fates: seq<Fate>)
    requires |picked| == |fates| && Pending(outbox, picked)
    ensures CompletedCount(fates) == |Marks(picked, fates)|
    decreases |picked|
  {
    if picked == [] {
    } else {
      MarksSplit(picked, fates);
      if fates[0].Crashed? {
      } else {
        RestPending(outbox, outbox, picked);
        MarksCounted(outbox, picked[1..], fates[1..]);
        MarksPicked(picked[1..], fates[1..], picked[0]);
      }
    }
  }

  lemma RowCompletes(p: Projection, i: nat, fate: Fate, embedder: Embedder)
    requires i < |p.outbox| && !p.outbox[i].completed
    ensures var q := TreatRow(p, i, fate, embedder);
            && CompletedRows(q.outbox) == CompletedRows(p.outbox) + (if fate.Done? then {i} else {})
            && |q.outbox| == |p.outbox|
            && forall k :: 0 <= k < |p.outbox| && k != i ==> q.outbox[k].completed == p.outbox[k].completed
  {
    TreatmentDecides(p, i, fate, embedder);
  }

  lemma MarksPicked(picked: seq<nat>, fates: seq<Fate>, i: nat)
    requires |picked| == |fates| && forall k :: 0 <= k < |picked| ==> picked[k] != i
    ensures i !in Marks(picked, fates)
  {
  }
}
