/**
 Reciprocal-rank fusion of document hits and passage hits: the two dictionary passes, the stable sort,
 and what moving a hit does to the fused order. Scores are reals.
 */
module RankFusion {
  import opened Wrappers

  datatype Hit = Hit(documentId: string, altId: string, filename: string, text: string)

  /** A fused row; `passage` is the start of the text of its document's best passage. */
  datatype Row = Row(key: string, filename: string, score: real, passage: Option<string>)

  function FirstNonEmpty(a: string, b: string): string {
    if a != "" then a else b
  }

  function DocumentKey(h: Hit): string {
    FirstNonEmpty(h.documentId, h.filename)
  }

  function PassageKey(h: Hit): string {
    FirstNonEmpty(h.documentId, FirstNonEmpty(h.altId, h.filename))
  }

  const RRF_K := 60.0
  const PASSAGE_LENGTH: nat := 500

  function Term(rank: nat): real {
    1.0 / (RRF_K + rank as real)
  }

  function Opening(text: string): string {
    if |text| <= PASSAGE_LENGTH then text else text[..PASSAGE_LENGTH]
  }

  // ----- What a row means -----

  function DocumentKeys(hits: seq<Hit>): (keys: seq<string>)
    ensures |keys| == |hits| && forall i :: 0 <= i < |hits| ==> keys[i] == DocumentKey(hits[i])
  {
    seq(|hits|, i requires 0 <= i < |hits| => DocumentKey(hits[i]))
  }

  function PassageKeys(hits: seq<Hit>): (keys: seq<string>)
    ensures |keys| == |hits| && forall i :: 0 <= i < |hits| ==> keys[i] == PassageKey(hits[i])
  {
    seq(|hits|, i requires 0 <= i < |hits| => PassageKey(hits[i]))
  }

  /** The terms of every occurrence. */
  function EveryTerm(keys: seq<string>, key: string): real {
    if keys == [] then 0.0
    else EveryTerm(keys[..|keys| - 1], key) + if keys[|keys| - 1] == key then Term(|keys|) else 0.0
  }

  /** The term of the first occurrence. */
  function BestTerm(keys: seq<string>, key: string): real {
    if keys == [] then 0.0
    else if key in keys[..|keys| - 1] then BestTerm(keys[..|keys| - 1], key)
    else if keys[|keys| - 1] == key then Term(|keys|)
    else 0.0
  }

  /** The first hit of a key. */
  function FirstOf(hits: seq<Hit>, keys: seq<string>, key: string): Option<Hit>
    requires |hits| == |keys|
  {
    if hits == [] then None
    else
      var earlier := FirstOf(hits[..|hits| - 1], keys[..|keys| - 1], key);
      if earlier.Some? then earlier
      else if keys[|keys| - 1] == key then Some(hits[|hits| - 1])
      else None
  }

  function FirstDocument(documents: seq<Hit>, key: string): Option<Hit> {
    FirstOf(documents, DocumentKeys(documents), key)
  }

  function FirstPassage(passages: seq<Hit>, key: string): Option<Hit> {
    FirstOf(passages, PassageKeys(passages), key)
  }

  function Score(documents: seq<Hit>, passages: seq<Hit>, key: string): real {
    EveryTerm(DocumentKeys(documents), key) + BestTerm(PassageKeys(passages), key)
  }

  function RowOf(documents: seq<Hit>, passages: seq<Hit>, key: string): Row {
    var document := FirstDocument(documents, key);
    var passage := FirstPassage(passages, key);
    Row(key,
        if document.Some? then document.value.filename else if passage.Some? then passage.value.filename else "",
        Score(documents, passages, key),
        if passage.Some? then Some(Opening(passage.value.text)) else None)
  }

  /** The non-empty keys in the order of their first occurrences. */
  function Firsts(keys: seq<string>): (firsts: seq<string>)
    ensures forall k :: k in firsts <==> k in keys && k != ""
  {
    if keys == [] then []
    else
      var last := keys[|keys| - 1];
      var init := Firsts(keys[..|keys| - 1]);
      assert forall k :: k in keys <==> k in keys[..|keys| - 1] || k == last;
      if last == "" || last in init then init else init + [last]
  }

  function Keys(documents: seq<Hit>, passages: seq<Hit>): seq<string> {
    Firsts(DocumentKeys(documents) + PassageKeys(passages))
  }

  function Rows(documents: seq<Hit>, passages: seq<Hit>): (rows: seq<Row>) {
    var keys := Keys(documents, passages);
    seq(|keys|, i requires 0 <= i < |keys| => RowOf(documents, passages, keys[i]))
  }

  // ----- The stable sort -----

  /** The order of strings by characters. */
  predicate LexLeq(a: string, b: string) {
    if a == [] then true
    else if b == [] then false
    else a[0] < b[0] || (a[0] == b[0] && LexLeq(a[1..], b[1..]))
  }

  /** The sort key of `a` is at most that of `b`: higher score first, then filename. */
  predicate Leq(a: Row, b: Row) {
    a.score > b.score || (a.score == b.score && LexLeq(a.filename, b.filename))
  }

  function Insert(sorted: seq<Row>, row: Row): (r: seq<Row>)
    ensures multiset(r) == multiset(sorted) + multiset{row}
  {
    if sorted == [] || Leq(sorted[|sorted| - 1], row) then sorted + [row]
    else
      assert sorted == sorted[..|sorted| - 1] + [sorted[|sorted| - 1]];
      Insert(sorted[..|sorted| - 1], row) + [sorted[|sorted| - 1]]
  }

  function StableSort(rows: seq<Row>): (r: seq<Row>)
    ensures multiset(r) == multiset(rows)
  {
    if rows == [] then []
    else
      assert rows == rows[..|rows| - 1] + [rows[|rows| - 1]];
      Insert(StableSort(rows[..|rows| - 1]), rows[|rows| - 1])
  }

  function Ranking(documents: seq<Hit>, passages: seq<Hit>): seq<Row> {
    StableSort(Rows(documents, passages))
  }

  function Top(ranking: seq<Row>, topK: int): seq<Row> {
    var k := if topK > 1 then topK else 1;
    if |ranking| <= k then ranking else ranking[..k]
  }

  // ----- The two passes -----

  /** The dictionary of fused rows, with its keys in the order of insertion. */
  datatype Fused = Fused(order: seq<string>, rows: map<string, Row>)

  function Default(f: Fused, key: string, filename: string): Row {
    if key in f.rows then f.rows[key] else Row(key, filename, 0.0, None)
  }

  function Put(f: Fused, key: string, row: Row): Fused {
    Fused(if key in f.rows then f.order else f.order + [key], f.rows[key := row])
  }

  function DocumentStep(f: Fused, hit: Hit, rank: nat): Fused {
    var key := DocumentKey(hit);
    if key == "" then f
    else
      var row := Default(f, key, hit.filename);
      Put(f, key, row.(score := row.score + Term(rank)))
  }

  function DocumentFold(documents: seq<Hit>): Fused {
    if documents == [] then Fused([], map[])
    else DocumentStep(DocumentFold(documents[..|documents| - 1]), documents[|documents| - 1], |documents|)
  }

  /** The row with the term of a passage, and the start of its text unless the row has one. */
  function Credit(row: Row, hit: Hit, rank: nat): Row {
    row.(score := row.score + Term(rank), passage := if row.passage.Some? then row.passage else Some(Opening(hit.text)))
  }

  function PassageStep(f: Fused, hit: Hit, rank: nat): Fused {
    Put(f, PassageKey(hit), Credit(Default(f, PassageKey(hit), hit.filename), hit, rank))
  }

  function PassageFold(documents: seq<Hit>, passages: seq<Hit>): Fused {
    if passages == [] then DocumentFold(documents)
    else
      var f := PassageFold(documents, passages[..|passages| - 1]);
      var hit := passages[|passages| - 1];
      if PassageKey(hit) == "" || PassageKey(hit) in PassageKeys(passages[..|passages| - 1]) then f
      else PassageStep(f, hit, |passages|)
  }

  /** The first pass: every document hit adds its term. */
  method DocumentsPass(documents: seq<Hit>) returns (fused: Fused)
    ensures fused == DocumentFold(documents)
  {
    fused := Fused([], map[]);
    for i := 0 to |documents|
      invariant fused == DocumentFold(documents[..i])
    {
      var key := DocumentKey(documents[i]);
      assert documents[..i + 1][..i] == documents[..i];
      if key != "" {
        var row := Default(fused, key, documents[i].filename);
        fused := Put(fused, key, row.(score := row.score + Term(i + 1)));
      }
    }
    assert documents[..|documents|] == documents;
  }

  ghost predicate Saw(seen: set<string>, passages: seq<Hit>) {
    forall k :: k != "" ==> (k in seen <==> k in PassageKeys(passages))
  }

  lemma SawOne(seen: set<string>, passages: seq<Hit>, hit: Hit)
    requires Saw(seen, passages)
    ensures Saw(seen + {PassageKey(hit)}, passages + [hit])
    ensures PassageKey(hit) in seen ==> Saw(seen, passages + [hit])
    ensures PassageKey(hit) == "" ==> Saw(seen, passages + [hit])
  {
    AddPassage(passages, hit);
  }

  lemma FoldOne(documents: seq<Hit>, passages: seq<Hit>, hit: Hit)
    ensures PassageFold(documents, passages + [hit]) ==
            if PassageKey(hit) == "" || PassageKey(hit) in PassageKeys(passages) then PassageFold(documents, passages)
            else PassageStep(PassageFold(documents, passages), hit, |passages| + 1)
  {
    assert (passages + [hit])[..|passages|] == passages;
  }

  lemma AddPassage(passages: seq<Hit>, hit: Hit)
    ensures PassageKeys(passages + [hit]) == PassageKeys(passages) + [PassageKey(hit)]
    ensures forall k :: k in PassageKeys(passages + [hit]) <==> k in PassageKeys(passages) || k == PassageKey(hit)
  {
    assert PassageKeys(passages + [hit]) == PassageKeys(passages) + [PassageKey(hit)];
  }

  /** The second pass: a document's first passage adds its term. */
  method PassagesPass(documents: seq<Hit>, passages: seq<Hit>, first: Fused) returns (fused: Fused)
    requires first == DocumentFold(documents)
    ensures fused == PassageFold(documents, passages)
  {
    fused := first;
    var seen: set<string> := {};
    for i := 0 to |passages|
      invariant fused == PassageFold(documents, passages[..i])
      invariant Saw(seen, passages[..i])
    {
      var key := PassageKey(passages[i]);
      ghost var past := passages[..i];
      assert passages[..i + 1] == past + [passages[i]];
      SawOne(seen, past, passages[i]);
      FoldOne(documents, past, passages[i]);
      if key != "" && key !in seen {
        seen := seen + {key};
        var row := Default(fused, key, passages[i].filename);
        fused := Put(fused, key, Credit(row, passages[i], i + 1));
      }
    }
    assert passages[..|passages|] == passages;
  }

  // ----- What the passes compute -----

  /** The dictionary holds the right row of one key, or rightly none. */
  predicate Right(f: Fused, documents: seq<Hit>, passages: seq<Hit>, key: string) {
    && (key in f.rows <==> key != "" && (key in DocumentKeys(documents) || key in PassageKeys(passages)))
    && (key in f.rows ==> f.rows[key] == RowOf(documents, passages, key))
  }

  lemma FirstExists(hits: seq<Hit>, keys: seq<string>, key: string)
    requires |hits| == |keys|
    ensures FirstOf(hits, keys, key).Some? <==> key in keys
  {
    if hits == [] {
    } else {
      FirstExists(hits[..|hits| - 1], keys[..|keys| - 1], key);
      assert key in keys <==> key in keys[..|keys| - 1] || key == keys[|keys| - 1];
    }
  }

  lemma NoTerms(keys: seq<string>, key: string)
    requires key !in keys
    ensures EveryTerm(keys, key) == 0.0 && BestTerm(keys, key) == 0.0
  {
    if keys == [] {
    } else {
      NoTerms(keys[..|keys| - 1], key);
    }
  }

  /** A document adds its term to the row of its key, which it starts if there is none. */
  lemma AddDocumentRow(documents: seq<Hit>, hit: Hit, key: string)
    ensures key in DocumentKeys(documents + [hit]) <==> key in DocumentKeys(documents) || key == DocumentKey(hit)
    ensures RowOf(documents + [hit], [], key) ==
            if key != DocumentKey(hit) then RowOf(documents, [], key)
            else
              var row := if key in DocumentKeys(documents) then RowOf(documents, [], key)
                         else Row(key, hit.filename, 0.0, None);
              row.(score := row.score + Term(|documents| + 1))
  {
    assert DocumentKeys(documents + [hit]) == DocumentKeys(documents) + [DocumentKey(hit)];
    assert (documents + [hit])[..|documents|] == documents;
    assert DocumentKeys(documents + [hit])[..|documents|] == DocumentKeys(documents);
    FirstExists(documents, DocumentKeys(documents), key);
    if key !in DocumentKeys(documents) {
      NoTerms(DocumentKeys(documents), key);
    }
  }

  lemma {:induction false} DocumentFoldRight(documents: seq<Hit>, key: string)
    ensures Right(DocumentFold(documents), documents, [], key)
  {
    if documents == [] {
    } else {
      var init, hit := documents[..|documents| - 1], documents[|documents| - 1];
      DocumentFoldRight(init, key);
      assert documents == init + [hit];
      AddDocumentRow(init, hit, key);
    }
  }

  /** A passage changes only the row of a document that had none. */
  lemma AddPassageRow(documents: seq<Hit>, passages: seq<Hit>, hit: Hit, key: string)
    ensures RowOf(documents, passages + [hit], key) ==
            if key != PassageKey(hit) || key in PassageKeys(passages) then RowOf(documents, passages, key)
            else
              var row := if key in DocumentKeys(documents) then RowOf(documents, passages, key)
                         else Row(key, hit.filename, 0.0, None);
              Credit(row, hit, |passages| + 1)
  {
    AddPassage(passages, hit);
    assert (passages + [hit])[..|passages|] == passages;
    assert PassageKeys(passages + [hit])[..|passages|] == PassageKeys(passages);
    FirstExists(passages, PassageKeys(passages), key);
    FirstExists(documents, DocumentKeys(documents), key);
    if key !in PassageKeys(passages) {
      NoTerms(PassageKeys(passages), key);
    }
    if key !in DocumentKeys(documents) {
      NoTerms(DocumentKeys(documents), key);
    }
  }

  lemma {:induction false} PassageFoldRight(documents: seq<Hit>, passages: seq<Hit>, key: string)
    ensures Right(PassageFold(documents, passages), documents, passages, key)
  {
    if passages == [] {
      DocumentFoldRight(documents, key);
    } else {
      var init, hit := passages[..|passages| - 1], passages[|passages| - 1];
      assert passages == init + [hit];
      PassageFoldRight(documents, init, key);
      PassageStepRight(documents, init, hit, key);
    }
  }

  lemma PassageFoldRow(documents: seq<Hit>, passages: seq<Hit>, hit: Hit, key: string)
    ensures var f, g := PassageFold(documents, passages), PassageFold(documents, passages + [hit]);
            if key == "" || key != PassageKey(hit) || key in PassageKeys(passages) then
              (key in g.rows <==> key in f.rows) && (key in f.rows ==> g.rows[key] == f.rows[key])
            else key in g.rows && g.rows[key] == Credit(Default(f, key, hit.filename), hit, |passages| + 1)
  {
    FoldOne(documents, passages, hit);
  }

  lemma PassageStepRight(documents: seq<Hit>, passages: seq<Hit>, hit: Hit, key: string)
    requires Right(PassageFold(documents, passages), documents, passages, key)
    ensures Right(PassageFold(documents, passages + [hit]), documents, passages + [hit], key)
  {
    PassageFoldRow(documents, passages, hit, key);
    AddPassage(passages, hit);
    AddPassageRow(documents, passages, hit, key);
  }

  lemma FirstsGrow(keys: seq<string>, key: string)
    ensures Firsts(keys + [key]) == if key == "" || key in keys then Firsts(keys) else Firsts(keys) + [key]
  {
    assert (keys + [key])[..|keys|] == keys;
  }

  lemma {:induction false} DocumentFoldOrder(documents: seq<Hit>)
    ensures DocumentFold(documents).order == Firsts(DocumentKeys(documents))
  {
    if documents == [] {
    } else {
      var init, hit := documents[..|documents| - 1], documents[|documents| - 1];
      DocumentFoldOrder(init);
      assert DocumentKeys(documents) == DocumentKeys(init) + [DocumentKey(hit)];
      FirstsGrow(DocumentKeys(init), DocumentKey(hit));
      DocumentFoldRight(init, DocumentKey(hit));
    }
  }

  lemma {:induction false} PassageFoldOrder(documents: seq<Hit>, passages: seq<Hit>)
    ensures PassageFold(documents, passages).order == Keys(documents, passages)
  {
    if passages == [] {
      DocumentFoldOrder(documents);
      assert DocumentKeys(documents) + PassageKeys(passages) == DocumentKeys(documents);
    } else {
      var init, hit := passages[..|passages| - 1], passages[|passages| - 1];
      PassageFoldOrder(documents, init);
      var channels := DocumentKeys(documents) + PassageKeys(init);
      assert DocumentKeys(documents) + PassageKeys(passages) == channels + [PassageKey(hit)];
      FirstsGrow(channels, PassageKey(hit));
      PassageFoldRight(documents, init, PassageKey(hit));
    }
  }

  /** The dictionary's values after both passes are the rows with the scores the documents deserve. */
  lemma {:induction false} PassesAreExact(documents: seq<Hit>, passages: seq<Hit>)
    ensures var f := PassageFold(documents, passages);
            && f.order == Keys(documents, passages)
            && forall i :: 0 <= i < |f.order| ==>
                 f.order[i] in f.rows && f.rows[f.order[i]] == RowOf(documents, passages, f.order[i])
  {
    PassageFoldOrder(documents, passages);
    var f := PassageFold(documents, passages);
    forall i | 0 <= i < |f.order|
      ensures f.order[i] in f.rows && f.rows[f.order[i]] == RowOf(documents, passages, f.order[i])
    {
      assert f.order[i] in Keys(documents, passages);
      PassageFoldRight(documents, passages, f.order[i]);
    }
  }

  /** The fused ranking of two channels, cut to its first rows. */
  method Fuse(documents: seq<Hit>, passages: seq<Hit>, topK: int) returns (ranked: seq<Row>)
    ensures ranked == Top(Ranking(documents, passages), topK)
  {
    var fused := DocumentsPass(documents);
    fused := PassagesPass(documents, passages, fused);
    PassesAreExact(documents, passages);
    var order, rows := fused.order, fused.rows;
    var values := seq(|order|, j requires 0 <= j < |order| && order[j] in rows => rows[order[j]]);
    assert values == Rows(documents, passages);
    ranked := Top(StableSort(values), topK);
  }
}
