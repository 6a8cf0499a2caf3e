/** The fused ranking is the stable sort of one row per document, and moving a document up never hurts it. */
module FusionLaws {
  import opened RankFusion
  import opened TableSums

  // ----- The order -----

  lemma {:induction false} LexTotal(a: string, b: string)
    ensures LexLeq(a, b) || LexLeq(b, a)
  {
    if a == [] || b == [] {
    } else {
      LexTotal(a[1..], b[1..]);
    }
  }

  lemma {:induction false} LexTransitive(a: string, b: string, c: string)
    requires LexLeq(a, b) && LexLeq(b, c)
    ensures LexLeq(a, c)
  {
    if a == [] || !(a[0] == b[0] == c[0]) {
    } else {
      LexTransitive(a[1..], b[1..], c[1..]);
    }
  }

  lemma LeqTotal(a: Row, b: Row)
    ensures Leq(a, b) || Leq(b, a)
  {
    LexTotal(a.filename, b.filename);
  }

  lemma LeqTransitive(a: Row, b: Row, c: Row)
    requires Leq(a, b) && Leq(b, c)
    ensures Leq(a, c)
  {
    if a.score == b.score == c.score {
      LexTransitive(a.filename, b.filename, c.filename);
    }
  }

  /** The first place of a key, or the length if it is absent. */
  function Place(rows: seq<Row>, key: string): (p: nat)
    ensures p <= |rows|
    ensures p < |rows| ==> rows[p].key == key
    ensures forall i :: 0 <= i < p ==> rows[i].key != key
  {
    if rows == [] then 0
    else if rows[0].key == key then 0
    else 1 + Place(rows[1..], key)
  }

  /** `a` has the smaller sort key, or the same one and stands earlier in `rows`. */
  predicate Before(rows: seq<Row>, a: Row, b: Row) {
    !Leq(b, a) || (Leq(a, b) && Place(rows, a.key) < Place(rows, b.key))
  }

  predicate Distinct(rows: seq<Row>) {
    forall i, j :: 0 <= i < j < |rows| ==> rows[i].key != rows[j].key
  }

  predicate Ordered(rows: seq<Row>, sorted: seq<Row>) {
    forall i, j :: 0 <= i < j < |sorted| ==> Before(rows, sorted[i], sorted[j])
  }

  lemma BeforeLeq(rows: seq<Row>, a: Row, b: Row)
    requires Before(rows, a, b)
    ensures Leq(a, b)
  {
    LeqTotal(a, b);
  }

  // ----- The sort -----

  lemma InsertMembers(sorted: seq<Row>, row: Row)
    ensures forall r :: r in Insert(sorted, row) <==> r in sorted || r == row
  {
    assert forall r :: r in Insert(sorted, row) <==> r in multiset(Insert(sorted, row));
  }

  lemma {:induction false} InsertOrdered(rows: seq<Row>, sorted: seq<Row>, row: Row)
    requires Ordered(rows, sorted)
    requires forall r :: r in sorted ==> Place(rows, r.key) < Place(rows, row.key)
    ensures Ordered(rows, Insert(sorted, row))
  {
    var n := |sorted|;
    if sorted == [] || Leq(sorted[n - 1], row) {
      AppendOrdered(rows, sorted, row);
    } else {
      var last, init := sorted[n - 1], sorted[..n - 1];
      InitOrdered(rows, sorted);
      InsertOrdered(rows, init, row);
      InsertedBeforeLast(rows, sorted, row);
      OrderedThen(rows, Insert(init, row), last);
    }
  }

  lemma InitOrdered(rows: seq<Row>, sorted: seq<Row>)
    requires sorted != [] && Ordered(rows, sorted)
    ensures var init := sorted[..|sorted| - 1]; Ordered(rows, init) && forall r :: r in init ==> r in sorted
  {
  }

  predicate AllBefore(rows: seq<Row>, sorted: seq<Row>, last: Row) {
    forall i :: 0 <= i < |sorted| ==> Before(rows, sorted[i], last)
  }

  lemma InsertedBeforeLast(rows: seq<Row>, sorted: seq<Row>, row: Row)
    requires sorted != [] && Ordered(rows, sorted) && !Leq(sorted[|sorted| - 1], row)
    ensures AllBefore(rows, Insert(sorted[..|sorted| - 1], row), sorted[|sorted| - 1])
  {
    var init, last := sorted[..|sorted| - 1], sorted[|sorted| - 1];
    var inserted := Insert(init, row);
    InsertMembers(init, row);
    forall i | 0 <= i < |inserted|
      ensures Before(rows, inserted[i], last)
    {
      assert inserted[i] in inserted;
      if inserted[i] in init {
        var j :| 0 <= j < |init| && init[j] == inserted[i];
        assert sorted[j] == inserted[i];
      }
    }
  }

  lemma OrderedThen(rows: seq<Row>, sorted: seq<Row>, last: Row)
    requires Ordered(rows, sorted) && AllBefore(rows, sorted, last)
    ensures Ordered(rows, sorted + [last])
  {
  }

  lemma AppendOrdered(rows: seq<Row>, sorted: seq<Row>, row: Row)
    requires Ordered(rows, sorted)
    requires sorted != [] ==> Leq(sorted[|sorted| - 1], row)
    requires forall r :: r in sorted ==> Place(rows, r.key) < Place(rows, row.key)
    ensures Ordered(rows, sorted + [row])
  {
    forall i | 0 <= i < |sorted|
      ensures Before(rows, sorted[i], row)
    {
      if i < |sorted| - 1 {
        BeforeLeq(rows, sorted[i], sorted[|sorted| - 1]);
        LeqTransitive(sorted[i], sorted[|sorted| - 1], row);
      }
      assert sorted[i] in sorted;
    }
  }

  lemma {:induction false} PlaceInPrefix(init: seq<Row>, row: Row, key: string)
    ensures Place(init, key) < |init| ==> Place(init + [row], key) == Place(init, key)
  {
    if init == [] {
    } else {
      PlaceInPrefix(init[1..], row, key);
      assert (init + [row])[1..] == init[1..] + [row];
    }
  }

  lemma PlaceOfMember(rows: seq<Row>, i: nat)
    requires Distinct(rows) && i < |rows|
    ensures Place(rows, rows[i].key) == i
  {
    var p := Place(rows, rows[i].key);
    assert p <= i;
  }

  lemma {:induction false} SortOrdered(rows: seq<Row>)
    requires Distinct(rows)
    ensures Ordered(rows, StableSort(rows))
    ensures forall r :: r in StableSort(rows) <==> r in rows
  {
    if rows == [] {
    } else {
      var init, row := rows[..|rows| - 1], rows[|rows| - 1];
      assert rows == init + [row];
      SortOrdered(init);
      InsertMembers(StableSort(init), row);
      PlacesStay(init, row);
      SameOrdered(init, rows, StableSort(init));
      PlaceOfMember(rows, |init|);
      InsertOrdered(rows, StableSort(init), row);
    }
  }

  lemma PlacesStay(init: seq<Row>, row: Row)
    requires Distinct(init)
    ensures forall r :: r in init ==> Place(init + [row], r.key) == Place(init, r.key) < |init|
  {
    forall r | r in init
      ensures Place(init + [row], r.key) == Place(init, r.key) < |init|
    {
      var i :| 0 <= i < |init| && init[i] == r;
      PlaceOfMember(init, i);
      PlaceInPrefix(init, row, r.key);
    }
  }

  lemma SameOrdered(before: seq<Row>, after: seq<Row>, sorted: seq<Row>)
    requires Ordered(before, sorted) && forall r :: r in sorted ==> Place(after, r.key) == Place(before, r.key)
    ensures Ordered(after, sorted)
  {
    forall i, j | 0 <= i < j < |sorted|
      ensures Before(after, sorted[i], sorted[j])
    {
      assert sorted[i] in sorted && sorted[j] in sorted;
    }
  }

  lemma OrderedIsDistinct(rows: seq<Row>, sorted: seq<Row>)
    requires Distinct(rows) && Ordered(rows, sorted) && forall r :: r in sorted ==> r in rows
    ensures Distinct(sorted)
  {
    forall i, j | 0 <= i < j < |sorted|
      ensures sorted[i].key != sorted[j].key
    {
      if sorted[i].key == sorted[j].key {
        assert sorted[i] in sorted && sorted[j] in sorted;
        var a :| 0 <= a < |rows| && rows[a] == sorted[i];
        var b :| 0 <= b < |rows| && rows[b] == sorted[j];
        assert Before(rows, sorted[i], sorted[j]);
        assert a == b;
        LeqTotal(rows[a], rows[a]);
        assert false;
      }
    }
  }

  lemma {:induction false} FirstsDistinct(keys: seq<string>)
    ensures forall i, j :: 0 <= i < j < |Firsts(keys)| ==> Firsts(keys)[i] != Firsts(keys)[j]
  {
    if keys == [] {
    } else {
      FirstsDistinct(keys[..|keys| - 1]);
    }
  }

  lemma RowsDistinct(documents: seq<Hit>, passages: seq<Hit>)
    ensures Distinct(Rows(documents, passages))
  {
    FirstsDistinct(DocumentKeys(documents) + PassageKeys(passages));
  }

  /**
   The ranking holds exactly one row for every non-empty key of either channel, with its score, and it is
   ordered by score, then filename, then first appearance.
   */
  lemma {:induction false} RankingIsExact(documents: seq<Hit>, passages: seq<Hit>)
    ensures var ranking := Ranking(documents, passages);
            && Distinct(ranking)
            && Ordered(Rows(documents, passages), ranking)
            && (forall r :: r in ranking ==> r == RowOf(documents, passages, r.key))
            && (forall key :: Place(ranking, key) < |ranking| <==>
                  key != "" && (key in DocumentKeys(documents) || key in PassageKeys(passages)))
  {
    var rows, keys := Rows(documents, passages), Keys(documents, passages);
    RowsDistinct(documents, passages);
    SortOrdered(rows);
    var ranking := Ranking(documents, passages);
    OrderedIsDistinct(rows, ranking);
    forall key
      ensures Place(ranking, key) < |ranking| <==>
              key != "" && (key in DocumentKeys(documents) || key in PassageKeys(passages))
    {
      if key in keys {
        var i :| 0 <= i < |keys| && keys[i] == key;
        assert rows[i] in ranking;
        var j :| 0 <= j < |ranking| && ranking[j] == rows[i];
      }
      var p := Place(ranking, key);
      if p < |ranking| {
        assert ranking[p] in rows;
      }
    }
  }

  // ----- Moving up -----

  /** Row order by key. */
  predicate Ahead(documents: seq<Hit>, passages: seq<Hit>, a: string, b: string) {
    Before(Rows(documents, passages), RowOf(documents, passages, a), RowOf(documents, passages, b))
  }

  lemma PlacedIffBefore(rows: seq<Row>, sorted: seq<Row>, p: nat, q: nat)
    requires Ordered(rows, sorted) && p < |sorted| && q < |sorted| && p != q
    ensures p < q <==> Before(rows, sorted[p], sorted[q])
  {
    if q < p {
      assert Before(rows, sorted[q], sorted[p]);
      LeqTotal(sorted[p], sorted[q]);
    }
  }

  lemma RankedRow(documents: seq<Hit>, passages: seq<Hit>, key: string)
    requires Place(Ranking(documents, passages), key) < |Ranking(documents, passages)|
    ensures Ranking(documents, passages)[Place(Ranking(documents, passages), key)] == RowOf(documents, passages, key)
  {
    RankingIsExact(documents, passages);
    assert Ranking(documents, passages)[Place(Ranking(documents, passages), key)] in Ranking(documents, passages);
  }

  lemma PlacedIffAhead(documents: seq<Hit>, passages: seq<Hit>, a: string, b: string)
    requires a != b
    requires var ranking := Ranking(documents, passages); Place(ranking, a) < |ranking| && Place(ranking, b) < |ranking|
    requires Ordered(Rows(documents, passages), Ranking(documents, passages))
    ensures var ranking := Ranking(documents, passages);
            Place(ranking, a) < Place(ranking, b) <==> Ahead(documents, passages, a, b)
  {
    var ranking := Ranking(documents, passages);
    RankedRow(documents, passages, a);
    RankedRow(documents, passages, b);
    PlacedIffBefore(Rows(documents, passages), ranking, Place(ranking, a), Place(ranking, b));
  }

  function KeySet(rows: seq<Row>, n: nat): set<string>
    requires n <= |rows|
  {
    set i | 0 <= i < n :: rows[i].key
  }

  lemma {:induction false} KeySetSize(rows: seq<Row>, n: nat)
    requires Distinct(rows) && n <= |rows|
    ensures |KeySet(rows, n)| == n
  {
    if n == 0 {
    } else {
      KeySetSize(rows, n - 1);
      assert KeySet(rows, n) == KeySet(rows, n - 1) + {rows[n - 1].key};
      assert rows[n - 1].key !in KeySet(rows, n - 1);
    }
  }

  /** A change of the channels that lets no other document get ahead of `key` does not lower its place. */
  lemma NoneOvertakes(documents: seq<Hit>, passages: seq<Hit>, documents': seq<Hit>, passages': seq<Hit>, key: string)
    requires forall k :: k in DocumentKeys(documents) <==> k in DocumentKeys(documents')
    requires forall k :: k in PassageKeys(passages) <==> k in PassageKeys(passages')
    requires key != "" && (key in DocumentKeys(documents) || key in PassageKeys(passages))
    requires forall k :: k != key && Ahead(documents', passages', k, key) ==> Ahead(documents, passages, k, key)
    ensures Place(Ranking(documents', passages'), key) <= Place(Ranking(documents, passages), key)
  {
    RankingIsExact(documents, passages);
    RankingIsExact(documents', passages');
    var before, after := Ranking(documents, passages), Ranking(documents', passages');
    var p, q := Place(before, key), Place(after, key);
    forall i | 0 <= i < q
      ensures after[i].key in KeySet(before, p)
    {
      var k := after[i].key;
      PlaceOfMember(after, i);
      PlacedIffAhead(documents', passages', k, key);
      PlacedIffAhead(documents, passages, k, key);
      assert before[Place(before, k)].key == k;
    }
    KeySetSize(before, p);
    KeySetSize(after, q);
    SubsetSize(KeySet(after, q), KeySet(before, p));
  }

  lemma ScoreDecides(documents: seq<Hit>, passages: seq<Hit>, documents': seq<Hit>, passages': seq<Hit>, key: string)
    requires Score(documents', passages', key) > Score(documents, passages, key)
    requires forall k :: k != key ==> Score(documents', passages', k) <= Score(documents, passages, k)
    ensures forall k :: k != key && Ahead(documents', passages', k, key) ==> Ahead(documents, passages, k, key)
  {
    forall k | k != key && Ahead(documents', passages', k, key)
      ensures Ahead(documents, passages, k, key)
    {
      BeforeLeq(Rows(documents', passages'), RowOf(documents', passages', k), RowOf(documents', passages', key));
      assert Score(documents', passages', k) >= Score(documents', passages', key);
    }
  }

  function Swap<T>(s: seq<T>, i: nat): (r: seq<T>)
    requires i + 1 < |s|
    ensures multiset(r) == multiset(s)
  {
    s[i := s[i + 1]][i + 1 := s[i]]
  }

  lemma SwapKeepsMembers<T>(s: seq<T>, i: nat)
    requires i + 1 < |s|
    ensures forall x :: x in s <==> x in Swap(s, i)
  {
    forall x
      ensures x in s <==> x in Swap(s, i)
    {
      assert x in s <==> x in multiset(s);
      assert x in Swap(s, i) <==> x in multiset(Swap(s, i));
    }
  }

  lemma TermDecreases(rank: nat)
    ensures Term(rank + 1) < Term(rank)
  {
    var a := RRF_K + rank as real;
    assert 1.0 / (a + 1.0) * (a + 1.0) == 1.0 && 1.0 / a * a == 1.0;
    if 1.0 / (a + 1.0) >= 1.0 / a {
      assert 1.0 / (a + 1.0) * a >= 1.0 / a * a;
    }
  }

  lemma {:induction false} EveryTermSwap(keys: seq<string>, i: nat, key: string)
    requires i + 1 < |keys|
    ensures EveryTerm(Swap(keys, i), key) - EveryTerm(keys, key) ==
            (if keys[i + 1] == key then Term(i + 1) - Term(i + 2) else 0.0) +
            (if keys[i] == key then Term(i + 2) - Term(i + 1) else 0.0)
  {
    var n, swapped := |keys|, Swap(keys, i);
    if n == i + 2 {
      assert keys[..n - 1][..i] == keys[..i] == swapped[..n - 1][..i];
    } else {
      assert swapped[..n - 1] == Swap(keys[..n - 1], i);
      EveryTermSwap(keys[..n - 1], i, key);
    }
  }

  lemma {:induction false} BestTermSwap(keys: seq<string>, i: nat, key: string)
    requires i + 1 < |keys| && keys[i] != keys[i + 1]
    ensures BestTerm(Swap(keys, i), key) - BestTerm(keys, key) ==
            if key in keys[..i] then 0.0
            else if keys[i + 1] == key then Term(i + 1) - Term(i + 2)
            else if keys[i] == key then Term(i + 2) - Term(i + 1)
            else 0.0
  {
    var n := |keys|;
    if n == i + 2 {
      assert keys == keys[..i] + [keys[i]] + [keys[i + 1]] && Swap(keys, i) == keys[..i] + [keys[i + 1]] + [keys[i]];
      BestTermMore(keys[..i], keys[i], key);
      BestTermMore(keys[..i] + [keys[i]], keys[i + 1], key);
      BestTermMore(keys[..i], keys[i + 1], key);
      BestTermMore(keys[..i] + [keys[i + 1]], keys[i], key);
    } else {
      var init := keys[..n - 1];
      assert keys == init + [keys[n - 1]] && Swap(keys, i) == Swap(init, i) + [keys[n - 1]];
      assert init[..i] == keys[..i];
      BestTermSwap(init, i, key);
      SwapKeepsMembers(init, i);
      BestTermMore(init, keys[n - 1], key);
      BestTermMore(Swap(init, i), keys[n - 1], key);
    }
  }

  lemma BestTermMore(keys: seq<string>, last: string, key: string)
    ensures BestTerm(keys + [last], key) ==
            if key in keys then BestTerm(keys, key) else if last == key then Term(|keys| + 1) else 0.0
    ensures key !in keys ==> BestTerm(keys, key) == 0.0
  {
    assert (keys + [last])[..|keys|] == keys;
    if key !in keys {
      NoTerms(keys, key);
    }
  }

  lemma {:induction false} FirstOfSwap(hits: seq<Hit>, keys: seq<string>, i: nat, key: string)
    requires |hits| == |keys| && i + 1 < |keys| && keys[i] != keys[i + 1]
    ensures FirstOf(Swap(hits, i), Swap(keys, i), key) == FirstOf(hits, keys, key)
  {
    var n := |keys|;
    if n == i + 2 {
      assert hits[..n - 1][..i] == hits[..i] == Swap(hits, i)[..n - 1][..i];
      assert keys[..n - 1][..i] == keys[..i] == Swap(keys, i)[..n - 1][..i];
    } else {
      assert Swap(keys, i)[..n - 1] == Swap(keys[..n - 1], i);
      assert Swap(hits, i)[..n - 1] == Swap(hits[..n - 1], i);
      FirstOfSwap(hits[..n - 1], keys[..n - 1], i, key);
    }
  }

  lemma FirstsSwapLast(keys: seq<string>, a: string, b: string)
    requires b in keys
    ensures Firsts(keys + [b] + [a]) == Firsts(keys + [a] + [b])
  {
    FirstsGrow(keys, a);
    FirstsGrow(keys, b);
    FirstsGrow(keys + [a], b);
    FirstsGrow(keys + [b], a);
  }

  lemma {:induction false} FirstsSwap(keys: seq<string>, i: nat)
    requires i + 1 < |keys| && keys[i + 1] in keys[..i]
    ensures Firsts(Swap(keys, i)) == Firsts(keys)
  {
    var n, swapped := |keys|, Swap(keys, i);
    if n == i + 2 {
      assert keys == keys[..i] + [keys[i]] + [keys[i + 1]] && swapped == keys[..i] + [keys[i + 1]] + [keys[i]];
      FirstsSwapLast(keys[..i], keys[i], keys[i + 1]);
    } else {
      assert keys[..n - 1][..i] == keys[..i];
      FirstsSwap(keys[..n - 1], i);
      assert keys == keys[..n - 1] + [keys[n - 1]] && swapped == Swap(keys[..n - 1], i) + [keys[n - 1]];
      FirstsGrow(keys[..n - 1], keys[n - 1]);
      FirstsGrow(Swap(keys[..n - 1], i), keys[n - 1]);
    }
  }

  /** Moving a document hit one place up, past a hit of another document, never lowers the document's fused place. */
  lemma DocumentMovesUp(documents: seq<Hit>, passages: seq<Hit>, i: nat)
    requires i + 1 < |documents|
    requires DocumentKey(documents[i + 1]) != "" && DocumentKey(documents[i + 1]) != DocumentKey(documents[i])
    ensures var key := DocumentKey(documents[i + 1]);
            Place(Ranking(Swap(documents, i), passages), key) <= Place(Ranking(documents, passages), key)
  {
    var key, keys := DocumentKey(documents[i + 1]), DocumentKeys(documents);
    assert DocumentKeys(Swap(documents, i)) == Swap(keys, i);
    forall k
      ensures k == key ==> Score(Swap(documents, i), passages, k) > Score(documents, passages, k)
      ensures k != key ==> Score(Swap(documents, i), passages, k) <= Score(documents, passages, k)
    {
      EveryTermSwap(keys, i, k);
      TermDecreases(i + 1);
    }
    SwapKeepsMembers(keys, i);
    assert key == keys[i + 1];
    ScoreDecides(documents, passages, Swap(documents, i), passages, key);
    NoneOvertakes(documents, passages, Swap(documents, i), passages, key);
  }

  lemma BestTermMoves(keys: seq<string>, i: nat, k: string)
    requires i + 1 < |keys| && keys[i] != keys[i + 1]
    ensures var before, after := BestTerm(keys, k), BestTerm(Swap(keys, i), k);
            && (k != keys[i + 1] ==> after <= before)
            && (k == keys[i + 1] ==> if k in keys[..i] then after == before else after > before)
  {
    TermDecreases(i + 1);
    BestTermSwap(keys, i, k);
  }

  /** The score of a key after a passage moved up past another document's. */
  lemma PassageScore(documents: seq<Hit>, passages: seq<Hit>, i: nat, k: string)
    requires i + 1 < |passages| && PassageKey(passages[i + 1]) != PassageKey(passages[i])
    ensures var before, after := Score(documents, passages, k), Score(documents, Swap(passages, i), k);
            var key, earlier := PassageKey(passages[i + 1]), PassageKey(passages[i + 1]) in PassageKeys(passages)[..i];
            && (k != key ==> after <= before)
            && (k == key ==> if earlier then after == before else after > before)
  {
    assert PassageKeys(Swap(passages, i)) == Swap(PassageKeys(passages), i);
    BestTermMoves(PassageKeys(passages), i, k);
  }

  /** Moving a passage hit one place up lets no document get ahead of the passage's document. */
  lemma PassageKeepsAhead(documents: seq<Hit>, passages: seq<Hit>, i: nat)
    requires i + 1 < |passages| && PassageKey(passages[i + 1]) != PassageKey(passages[i])
    ensures var key := PassageKey(passages[i + 1]);
            forall k :: k != key && Ahead(documents, Swap(passages, i), k, key) ==> Ahead(documents, passages, k, key)
  {
    var key := PassageKey(passages[i + 1]);
    forall k
      ensures k != key ==> Score(documents, Swap(passages, i), k) <= Score(documents, passages, k)
    {
      PassageScore(documents, passages, i, k);
    }
    PassageScore(documents, passages, i, key);
    if key in PassageKeys(passages)[..i] {
      LaterPassageMovesUp(documents, passages, i);
    } else {
      ScoreDecides(documents, passages, documents, Swap(passages, i), key);
    }
  }

  /** Moving a passage hit one place up, past a hit of another document, never lowers the document's fused place. */
  lemma {:induction false} PassageMovesUp(documents: seq<Hit>, passages: seq<Hit>, i: nat)
    requires i + 1 < |passages|
    requires PassageKey(passages[i + 1]) != "" && PassageKey(passages[i + 1]) != PassageKey(passages[i])
    ensures var key := PassageKey(passages[i + 1]);
            Place(Ranking(documents, Swap(passages, i)), key) <= Place(Ranking(documents, passages), key)
  {
    var keys := PassageKeys(passages);
    PassageKeepsAhead(documents, passages, i);
    assert PassageKeys(Swap(passages, i)) == Swap(keys, i);
    SwapKeepsMembers(keys, i);
    assert keys[i + 1] == PassageKey(passages[i + 1]);
    NoneOvertakes(documents, passages, documents, Swap(passages, i), PassageKey(passages[i + 1]));
  }

  /** A passage that is not its document's best keeps every filename and the order of first appearance. */
  lemma LaterPassageMovesUp(documents: seq<Hit>, passages: seq<Hit>, i: nat)
    requires i + 1 < |passages| && PassageKey(passages[i + 1]) != PassageKey(passages[i])
    requires PassageKey(passages[i + 1]) in PassageKeys(passages)[..i]
    requires forall k :: Score(documents, Swap(passages, i), k) <= Score(documents, passages, k)
    requires var key := PassageKey(passages[i + 1]);
             Score(documents, Swap(passages, i), key) == Score(documents, passages, key)
    ensures var key := PassageKey(passages[i + 1]);
            forall k :: k != key && Ahead(documents, Swap(passages, i), k, key) ==> Ahead(documents, passages, k, key)
  {
    var key, swapped := PassageKey(passages[i + 1]), Swap(passages, i);
    SameOrder(documents, passages, i);
    forall k | k != key && Ahead(documents, swapped, k, key)
      ensures Ahead(documents, passages, k, key)
    {
      SameName(documents, passages, i, k);
      SameName(documents, passages, i, key);
      BeforeLeq(Rows(documents, swapped), RowOf(documents, swapped, k), RowOf(documents, swapped, key));
      SamePlaces(documents, passages, swapped, k);
      SamePlaces(documents, passages, swapped, key);
    }
  }

  lemma SameOrder(documents: seq<Hit>, passages: seq<Hit>, i: nat)
    requires i + 1 < |passages| && PassageKey(passages[i + 1]) in PassageKeys(passages)[..i]
    ensures Keys(documents, Swap(passages, i)) == Keys(documents, passages)
  {
    var keys := PassageKeys(passages);
    var channels := DocumentKeys(documents) + keys;
    assert DocumentKeys(documents) + PassageKeys(Swap(passages, i)) == Swap(channels, |documents| + i);
    assert channels[..|documents| + i] == DocumentKeys(documents) + keys[..i];
    FirstsSwap(channels, |documents| + i);
  }

  lemma SameName(documents: seq<Hit>, passages: seq<Hit>, i: nat, key: string)
    requires i + 1 < |passages| && PassageKey(passages[i + 1]) != PassageKey(passages[i])
    ensures RowOf(documents, Swap(passages, i), key).filename == RowOf(documents, passages, key).filename
  {
    assert PassageKeys(Swap(passages, i)) == Swap(PassageKeys(passages), i);
    FirstOfSwap(passages, PassageKeys(passages), i, key);
  }

  lemma SamePlaces(documents: seq<Hit>, passages: seq<Hit>, passages': seq<Hit>, key: string)
    requires Keys(documents, passages) == Keys(documents, passages')
    ensures Place(Rows(documents, passages), key) == Place(Rows(documents, passages'), key)
  {
    var rows, rows' := Rows(documents, passages), Rows(documents, passages');
    assert forall j :: 0 <= j < |rows| ==> rows[j].key == rows'[j].key;
    var p, q := Place(rows, key), Place(rows', key);
    assert p < |rows| ==> rows'[p].key == key;
    assert q < |rows| ==> rows[q].key == key;
  }
}
