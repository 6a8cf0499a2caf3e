/** What a fused row is made of and how rows are ordered and cut, in numbers. */
module FusionScores {
  import opened Wrappers
  import opened RankFusion
  import opened FusionLaws

  /**
   A document is known by its id or else its filename; a passage by its document's id, its
   other id, or its filename.
   */
  lemma KeysAre(h: Hit)
    ensures DocumentKey(h) == if h.documentId != "" then h.documentId else h.filename
    ensures PassageKey(h) == if h.documentId != "" then h.documentId else if h.altId != "" then h.altId else h.filename
  {
  }

  /** The reciprocal of sixty and the place, counted from one. */
  function Reciprocal(place: nat): real {
    1.0 / (60.0 + (place + 1) as real)
  }

  /** The reciprocals of all places of a key, from the place `from` on. */
  function AllReciprocals(keys: seq<string>, key: string, from: nat): real {
    if keys == [] then 0.0
    else (if keys[0] == key then Reciprocal(from) else 0.0) + AllReciprocals(keys[1..], key, from + 1)
  }

  lemma {:induction false} ReciprocalsMore(keys: seq<string>, last: string, key: string, from: nat)
    ensures AllReciprocals(keys + [last], key, from) ==
            AllReciprocals(keys, key, from) + (if last == key then Reciprocal(from + |keys|) else 0.0)
  {
    if keys == [] {
      assert [last][1..] == [];
      assert AllReciprocals([last][1..], key, from + 1) == 0.0;
    } else {
      ReciprocalsMore(keys[1..], last, key, from + 1);
      assert (keys + [last])[1..] == keys[1..] + [last];
    }
  }

  lemma {:induction false} EveryPlaceCounts(keys: seq<string>, key: string)
    ensures EveryTerm(keys, key) == AllReciprocals(keys, key, 0)
  {
    if keys == [] {
    } else {
      EveryPlaceCounts(keys[..|keys| - 1], key);
      ReciprocalsMore(keys[..|keys| - 1], keys[|keys| - 1], key, 0);
      assert keys == keys[..|keys| - 1] + [keys[|keys| - 1]];
    }
  }

  /** The place is the first one of the key. */
  predicate FirstPlace(keys: seq<string>, key: string, place: nat) {
    place < |keys| && keys[place] == key && forall i :: 0 <= i < place ==> keys[i] != key
  }

  lemma {:induction false} FirstPlaceCounts(keys: seq<string>, key: string, place: nat)
    requires FirstPlace(keys, key, place)
    ensures BestTerm(keys, key) == Reciprocal(place)
  {
    var init := keys[..|keys| - 1];
    if place == |keys| - 1 {
    } else {
      assert init[place] == key;
      FirstPlaceCounts(init, key, place);
    }
  }

  lemma {:induction false} FirstHit(hits: seq<Hit>, keys: seq<string>, key: string, place: nat)
    requires |hits| == |keys| && FirstPlace(keys, key, place)
    ensures FirstOf(hits, keys, key) == Some(hits[place])
  {
    var init := keys[..|keys| - 1];
    if place == |keys| - 1 {
      FirstExists(hits[..|hits| - 1], init, key);
    } else {
      assert init[place] == key;
      FirstHit(hits[..|hits| - 1], init, key, place);
    }
  }

  /** A key's first place among the hits of a channel, or none. */
  predicate At(keys: seq<string>, key: string, place: Option<nat>) {
    match place
    case Some(p) => FirstPlace(keys, key, p)
    case None => key !in keys
  }

  /**
   The row of a key has the reciprocals of all its places among the documents and of its first place among the
   passages; the filename of its first document or else its first passage; and at most five hundred characters
   of its first passage.
   */
  lemma RowIsMadeOf(documents: seq<Hit>, passages: seq<Hit>, key: string, d: Option<nat>, p: Option<nat>)
    requires At(DocumentKeys(documents), key, d) && At(PassageKeys(passages), key, p)
    ensures var row := RowOf(documents, passages, key);
            && row.key == key
            && row.score == AllReciprocals(DocumentKeys(documents), key, 0) +
               (if p.Some? then Reciprocal(p.value) else 0.0)
            && row.filename == (if d.Some? then documents[d.value].filename
                                else if p.Some? then passages[p.value].filename else "")
            && (row.passage.Some? <==> p.Some?)
            && (p.Some? ==>
                  var text := passages[p.value].text;
                  row.passage.value == if |text| > 500 then text[..500] else text)
  {
    EveryPlaceCounts(DocumentKeys(documents), key);
    FirstExists(documents, DocumentKeys(documents), key);
    FirstExists(passages, PassageKeys(passages), key);
    if d.Some? {
      FirstHit(documents, DocumentKeys(documents), key, d.value);
      assert DocumentKeys(documents)[d.value] in DocumentKeys(documents);
    }
    if p.Some? {
      FirstPlaceCounts(PassageKeys(passages), key, p.value);
      FirstHit(passages, PassageKeys(passages), key, p.value);
      assert PassageKeys(passages)[p.value] in PassageKeys(passages);
    } else {
      NoTerms(PassageKeys(passages), key);
    }
  }

  // ----- The order -----

  /** The strings agree up to some place, where the first ends or has the smaller character. */
  predicate SmallerAt(a: string, b: string, i: nat) {
    i <= |a| && i <= |b| && a[..i] == b[..i] && (i == |a| || (i < |b| && a[i] < b[i]))
  }

  lemma {:induction false} SmallerIsLess(a: string, b: string, i: nat)
    requires SmallerAt(a, b, i)
    ensures LexLeq(a, b)
  {
    if i == 0 {
    } else {
      assert a[..i] == [a[0]] + a[1..][..i - 1] && b[..i] == [b[0]] + b[1..][..i - 1];
      SmallerIsLess(a[1..], b[1..], i - 1);
    }
  }

  lemma {:induction false} LessIsSmaller(a: string, b: string) returns (i: nat)
    requires LexLeq(a, b)
    ensures SmallerAt(a, b, i)
  {
    if a == [] || a[0] != b[0] {
      i := 0;
    } else {
      var rest := LessIsSmaller(a[1..], b[1..]);
      i := rest + 1;
      assert a[..i] == [a[0]] + a[1..][..rest] && b[..i] == [b[0]] + b[1..][..rest];
    }
  }

  /** Strings are compared character by character. */
  lemma LexIsByCharacter(a: string, b: string)
    ensures LexLeq(a, b) <==> exists i: nat :: SmallerAt(a, b, i)
  {
    if LexLeq(a, b) {
      var i := LessIsSmaller(a, b);
    }
    if i: nat :| SmallerAt(a, b, i) {
      SmallerIsLess(a, b, i);
    }
  }

  /** Of two rows of the result the earlier has the higher score or, with the same score, no greater filename. */
  lemma RowsDescend(documents: seq<Hit>, passages: seq<Hit>, topK: int, i: nat, j: nat)
    requires var top := Top(Ranking(documents, passages), topK); i < j < |top|
    ensures var top := Top(Ranking(documents, passages), topK);
            top[i].score > top[j].score
            || (top[i].score == top[j].score && exists n: nat :: SmallerAt(top[i].filename, top[j].filename, n))
  {
    RankingIsExact(documents, passages);
    var rows, ranking := Rows(documents, passages), Ranking(documents, passages);
    BeforeLeq(rows, ranking[i], ranking[j]);
    LexIsByCharacter(ranking[i].filename, ranking[j].filename);
  }

  /** The result is the head of the ranking: as many rows as wanted, at least one, or all there are. */
  lemma TopIsHead(ranking: seq<Row>, topK: int)
    ensures var top := Top(ranking, topK);
            && top <= ranking
            && (|top| == |ranking| || |top| == topK || (topK < 1 && |top| == 1))
            && (|top| < |ranking| ==> |top| >= 1 && |top| >= topK)
            && (|top| > 1 ==> |top| <= topK)
  {
  }
}
