/**
 The long-term memory store (memory/memory_manager.py): facts with revisions and
 tombstones, the outbox of intents for the vector index, event receipts, the replay that
 projects the outbox into the index, and recall.
 */
module MemoryStore {
  import opened Wrappers

  datatype Content = Content(value: string, relation: string, operationId: string, rest: string)

  /** A mutation's entry: a dictionary that should carry an id and may carry a revision. */
  datatype Entry = Entry(id: Option<string>, revision: Option<int>, content: Content)

  datatype Op = Upsert | Delete

  datatype Payload = Payload(id: string, user: string, revision: int, content: Content)

  datatype Fact = Fact(user: string, revision: int, payload: Payload, tombstoned: bool)

  datatype Row = Row(user: string, fact: string, revision: int, op: Op, payload: Payload,
                     completed: bool, attempts: nat)

  datatype Store = Store(facts: map<string, Fact>, outbox: seq<Row>, receipts: set<string>)

  /** What persisting leaves of a content; ids, users and revisions pass unchanged. */
  type Sanitizer = Content -> Content

  // ----- Committing mutations -----

  /**
   The idempotency key joins user, fact, revision and operation by colons. The last two hold no
   colon, so two keys are equal exactly if those are and the joined user and fact are.
   */
  predicate SameKey(r: Row, q: Row) {
    r.user + ":" + r.fact == q.user + ":" + q.fact && r.revision == q.revision && r.op == q.op
  }

  /** The stored fact a user sees under an id. */
  function OwnFact(s: Store, user: string, id: string): Option<Fact> {
    if id in s.facts && s.facts[id].user == user then Some(s.facts[id]) else None
  }

  /** The stored payload can be decrypted: it was encrypted for the user the fact is stored under. */
  predicate Readable(f: Fact) {
    f.payload.user == f.user
  }

  /** An explicit save reads the payload already stored. */
  predicate ReadsPrior(prior: Option<Fact>, entry: Entry) {
    prior.Some? && entry.content.relation == "explicit_memory" && entry.content.operationId != ""
  }

  /** An explicit save that repeats the operation and value already stored is skipped. */
  predicate Repeats(prior: Option<Fact>, op: Op, entry: Entry) {
    && ReadsPrior(prior, entry)
    && op.Upsert?
    && prior.value.payload.content.operationId == entry.content.operationId
    && prior.value.payload.content.value == entry.content.value
  }

  function NextRevision(prior: Option<Fact>, entry: Entry): int {
    if prior.Some? then prior.value.revision + 1
    else if entry.revision.Some? then entry.revision.value else 1
  }

  /** One mutation inside the transaction; none if it raises: without an id, or over a payload it cannot read. */
  function Mutate(s: Store, user: string, op: Op, entry: Entry, sanitize: Sanitizer): Option<Store> {
    if entry.id.None? then None else
    var id := entry.id.value;
    var prior := OwnFact(s, user, id);
    if ReadsPrior(prior, entry) && !Readable(prior.value) then None
    else if Repeats(prior, op, entry) then Some(s) else
    var revision := NextRevision(prior, entry);
    var payload := Payload(id, user, revision, sanitize(entry.content));
    var holder := if id in s.facts then s.facts[id].user else user;
    var row := Row(user, id, revision, op, payload, false, 0);
    var known := exists i :: 0 <= i < |s.outbox| && SameKey(s.outbox[i], row);
    Some(s.(facts := s.facts[id := Fact(holder, revision, payload, op.Delete?)],
            outbox := if known then s.outbox else s.outbox + [row]))
  }

  function MutateAll(s: Store, user: string, mutations: seq<(Op, Entry)>, sanitize: Sanitizer): Option<Store> {
    if mutations == [] then Some(s)
    else
      var before := MutateAll(s, user, mutations[..|mutations| - 1], sanitize);
      var (op, entry) := mutations[|mutations| - 1];
      if before.None? then None else Mutate(before.value, user, op, entry, sanitize)
  }

  /** The transaction: whether it commits, and the store after it. */
  function Commit(s: Store, user: string, mutations: seq<(Op, Entry)>, event: Option<string>, sanitize: Sanitizer):
    (bool, Store)
  {
    if event.Some? && event.value in s.receipts then (true, s)
    else
      var noted := if event.Some? then s.(receipts := s.receipts + {event.value}) else s;
      var done := MutateAll(noted, user, mutations, sanitize);
      if done.Some? then (true, done.value) else (false, s)
  }

  // ----- Projecting the outbox -----

  /** The embedder: none at all, or one that yields a vector for some payloads. */
  datatype Embedder = NoEmbedder | Embedder(embeds: Payload -> bool)

  function Project(index: map<string, Payload>, row: Row, embedder: Embedder): map<string, Payload> {
    if embedder.NoEmbedder? then index
    else if row.op.Delete? then index - {row.fact}
    else if embedder.embeds(row.payload) then index[row.fact := row.payload]
    else index
  }

  /**
   How the treatment of one fetched row ends: projected and marked complete, an exception
   before or after the projection took effect, or a crash before or after it.
   */
  datatype Fate = Done | Raised(projected: bool) | Crashed(projected: bool)

  /** `log` lists the outbox positions projected so far, in order. */
  datatype Projection = Projection(outbox: seq<Row>, index: map<string, Payload>, log: seq<nat>)

  function Projected(p: Projection, i: nat, embedder: Embedder): Projection
    requires i < |p.outbox|
  {
    p.(index := Project(p.index, p.outbox[i], embedder), log := p.log + [i])
  }

  function Marked(outbox: seq<Row>, i: nat): seq<Row>
    requires i < |outbox|
  {
    if outbox[i].completed then outbox
    else outbox[i := outbox[i].(completed := true, attempts := outbox[i].attempts + 1)]
  }

  function TreatRow(p: Projection, i: nat, fate: Fate, embedder: Embedder): (q: Projection)
    requires i < |p.outbox|
    ensures |q.outbox| == |p.outbox|
  {
    match fate
    case Done => Projected(p, i, embedder).(outbox := Marked(p.outbox, i))
    case Raised(projected) =>
      (if projected then Projected(p, i, embedder) else p)
        .(outbox := p.outbox[i := p.outbox[i].(attempts := p.outbox[i].attempts + 1)])
    case Crashed(projected) => if projected then Projected(p, i, embedder) else p
  }

  /** The fetched rows `picked` treated in order, until they run out or a crash ends the pass. */
  function Replayed(p: Projection, picked: seq<nat>, fates: seq<Fate>, embedder: Embedder): (q: Projection)
    requires |picked| == |fates| && forall k :: 0 <= k < |picked| ==> picked[k] < |p.outbox|
    ensures |q.outbox| == |p.outbox|
    decreases |picked|
  {
    if picked == [] then p
    else
      var q := TreatRow(p, picked[0], fates[0], embedder);
      if fates[0].Crashed? then q else Replayed(q, picked[1..], fates[1..], embedder)
  }

  /** The number of fetched rows that a pass completes. */
  function CompletedCount(fates: seq<Fate>): nat {
    if fates == [] || fates[0].Crashed? then 0
    else (if fates[0].Done? then 1 else 0) + CompletedCount(fates[1..])
  }

  /** `picked` is what the fetch may return: distinct pending rows, all of them unless the limit cuts. */
  ghost predicate Fetch(outbox: seq<Row>, picked: seq<nat>, limit: nat) {
    && |picked| <= limit
    && (forall k :: 0 <= k < |picked| ==> picked[k] < |outbox| && !outbox[picked[k]].completed)
    && (forall k, l :: 0 <= k < l < |picked| ==> picked[k] != picked[l])
    && (|picked| < limit ==> forall i :: 0 <= i < |outbox| && !outbox[i].completed ==> i in picked)
  }

  // ----- The class -----

  class Memory {
    var facts: map<string, Fact>
    var outbox: seq<Row>
    var receipts: set<string>
    var index: map<string, Payload>
    /** The outbox positions projected so far. */
    ghost var log: seq<nat>
    const sanitize: Sanitizer
    const embedder: Embedder

    function Snapshot(): Store
      reads this
    {
      Store(facts, outbox, receipts)
    }

    ghost function Projections(): Projection
      reads this
    {
      Projection(outbox, index, log)
    }

    constructor (sanitize: Sanitizer, embedder: Embedder)
      ensures Snapshot() == Store(map[], [], {}) && Projections() == Projection([], map[], [])
    {
      facts, outbox, receipts, index, log := map[], [], {}, map[], [];
      this.sanitize, this.embedder := sanitize, embedder;
    }

    /** Fact state, intents and receipt are committed together or not at all; no projection happens here. */
    method CommitMutations(user: string, mutations: seq<(Op, Entry)>, event: Option<string>) returns (committed: bool)
      modifies this`facts, this`outbox, this`receipts
      ensures (committed, Snapshot()) == Commit(old(Snapshot()), user, mutations, event, sanitize)
    {
      var open := Snapshot();
      if event.Some? {
        if event.value in receipts {
          return true;
        }
        open := open.(receipts := receipts + {event.value});
      }
      ghost var begun := open;
      for i := 0 to |mutations|
        invariant MutateAll(begun, user, mutations[..i], sanitize) == Some(open)
      {
        assert mutations[..i + 1][..i] == mutations[..i];
        var (op, entry) := mutations[i];
        if entry.id.None? {
          RaisesForGood(begun, user, mutations, i + 1, sanitize);
          return false;
        }
        var id := entry.id.value;
        var prior := OwnFact(open, user, id);
        if ReadsPrior(prior, entry) && !Readable(prior.value) {
          RaisesForGood(begun, user, mutations, i + 1, sanitize);
          return false;
        }
        if Repeats(prior, op, entry) {
          continue;
        }
        var revision := NextRevision(prior, entry);
        var payload := Payload(id, user, revision, sanitize(entry.content));
        var holder := if id in open.facts then open.facts[id].user else user;
        var row := Row(user, id, revision, op, payload, false, 0);
        var known := exists k :: 0 <= k < |open.outbox| && SameKey(open.outbox[k], row);
        open := open.(facts := open.facts[id := Fact(holder, revision, payload, op.Delete?)]);
        if !known {
          open := open.(outbox := open.outbox + [row]);
        }
      }
      assert mutations[..|mutations|] == mutations;
      facts, outbox, receipts := open.facts, open.outbox, open.receipts;
      committed := true;
    }

    /** Project fetched rows one by one; an exception leaves its row pending and goes on to the next. */
    method ReplayOutbox(picked: seq<nat>, fates: seq<Fate>, limit: nat) returns (completed: nat)
      requires Fetch(outbox, picked, limit) && |fates| == |picked|
      modifies this`outbox, this`index, this`log
      ensures Projections() == Replayed(old(Projections()), picked, fates, embedder)
      ensures completed == CompletedCount(fates)
    {
      completed := 0;
      ghost var before := Projections();
      for k := 0 to |picked|
        invariant |outbox| == |before.outbox|
        invariant Replayed(Projections(), picked[k..], fates[k..], embedder) ==
                  Replayed(before, picked, fates, embedder)
        invariant completed + CompletedCount(fates[k..]) == CompletedCount(fates)
      {
        var i, fate := picked[k], fates[k];
        ghost var p := Projections();
        assert picked[k..][1..] == picked[k + 1..] && fates[k..][1..] == fates[k + 1..];
        if fate.Done? || fate.projected {
          index := Project(index, outbox[i], embedder);
          log := log + [i];
        }
        if fate.Crashed? {
          return;
        }
        if fate.Done? {
          outbox := Marked(outbox, i);
          completed := completed + 1;
        } else {
          outbox := outbox[i := outbox[i].(attempts := outbox[i].attempts + 1)];
        }
        assert Projections() == TreatRow(p, i, fate, embedder);
      }
    }

    /** The live facts of a user; none if it raises, because one of them cannot be read. */
    method LoadL2(user: string) returns (loaded: Option<seq<Payload>>)
      ensures loaded.Some? <==> AllReadable(facts, user)
      ensures loaded.Some? ==> forall e :: e in loaded.value <==> e in LivePayloads(facts, user)
    {
      var entries: seq<Payload> := [];
      var todo := facts.Keys;
      while todo != {}
        invariant todo <= facts.Keys
        invariant forall id :: id in facts.Keys - todo && Lives(facts, user, id) ==> Readable(facts[id])
        invariant forall e :: e in entries <==>
                    exists id :: id in facts.Keys - todo && Lives(facts, user, id) && e == facts[id].payload
        decreases todo
      {
        var id :| id in todo;
        todo := todo - {id};
        if Lives(facts, user, id) {
          if !Readable(facts[id]) {
            return None;
          }
          entries := entries + [facts[id].payload];
        }
      }
      loaded := Some(entries);
    }

    /**
     The facts handed to the caller: the live facts the keyword search picks or, when it picks
     none, those named by the vector hits. Both searches are oracles; `hits` is whatever the
     index returned, in its order. None if loading the facts raises.
     */
    method RecallCandidates(user: string, keywords: set<string>, hits: seq<string>)
      returns (recalled: Option<seq<Payload>>)
      requires Keyed(facts)
      ensures recalled.Some? <==> AllReadable(facts, user)
      ensures recalled.Some? ==> forall e :: e in recalled.value <==>
                && e in LivePayloads(facts, user)
                && if exists p :: p in LivePayloads(facts, user) && p.id in keywords then e.id in keywords
                   else e.id in hits
    {
      var loaded := LoadL2(user);
      if loaded.None? {
        return None;
      }
      var entries := loaded.value;
      var candidates := Chosen(entries, keywords);
      if candidates == [] {
        var byId: map<string, Payload> := map[];
        for i := 0 to |entries|
          invariant forall id :: id in byId ==> byId[id] in entries && byId[id].id == id
          invariant forall k :: 0 <= k < i ==> entries[k].id in byId
        {
          byId := byId[entries[i].id := entries[i]];
        }
        for i := 0 to |hits|
          invariant forall e :: e in candidates <==> e in byId.Values && e.id in hits[..i]
        {
          if hits[i] in byId {
            candidates := candidates + [byId[hits[i]]];
          }
        }
        forall e | e in LivePayloads(facts, user)
          ensures e in byId.Values
        {
          assert byId[e.id] == e;
        }
      } else {
        assert candidates[0] in candidates;
      }
      recalled := Some(candidates);
    }
  }

  /** Every fact is stored under its own id. */
  predicate Keyed(facts: map<string, Fact>) {
    forall id :: id in facts ==> facts[id].payload.id == id
  }

  predicate Lives(facts: map<string, Fact>, user: string, id: string) {
    id in facts && facts[id].user == user && !facts[id].tombstoned
  }

  predicate AllReadable(facts: map<string, Fact>, user: string) {
    forall id :: id in facts && Lives(facts, user, id) ==> Readable(facts[id])
  }

  function LivePayloads(facts: map<string, Fact>, user: string): set<Payload> {
    set id | id in facts && Lives(facts, user, id) :: facts[id].payload
  }

  function Chosen(entries: seq<Payload>, ids: set<string>): (r: seq<Payload>)
    ensures forall e :: e in r <==> e in entries && e.id in ids
  {
    if entries == [] then []
    else (if entries[0].id in ids then [entries[0]] else []) + Chosen(entries[1..], ids)
  }

  /** A mutation that raises makes the whole list raise. */
  lemma {:induction false} RaisesForGood(s: Store, user: string, mutations: seq<(Op, Entry)>, n: nat,
                                         sanitize: Sanitizer)
    requires n <= |mutations| && MutateAll(s, user, mutations[..n], sanitize).None?
    ensures MutateAll(s, user, mutations, sanitize).None?
    decreases |mutations| - n
  {
    if n == |mutations| {
      assert mutations[..n] == mutations;
    } else {
      assert mutations[..n + 1][..n] == mutations[..n];
      RaisesForGood(s, user, mutations, n + 1, sanitize);
    }
  }
}
