/** Choosing time expressions by rule priority: an earlier rule's match shields its span from later ones. */
module TimeSpans {
  import opened Wrappers

  /** What a rule makes of a match: an expression, an error that becomes an invalid expression, or nothing. */
  datatype Reading = Parsed(value: string) | Invalid | Nothing

  /** A match of a rule on the text, in the order the rule finds them. */
  datatype Match = Match(start: nat, end: nat, reading: Reading)

  datatype Expr = Expr(value: Option<string>, raw: string, timezone: string)

  datatype Item = Item(start: nat, end: nat, priority: nat, expr: Expr)

  /** The text, and the time zone in force at each place of it. */
  datatype Text = Text(chars: string, zone: nat -> string)

  /** Two spans share more than an end. */
  predicate Overlap(start: nat, end: nat, otherStart: nat, otherEnd: nat) {
    start < otherEnd && end > otherStart
  }

  predicate Free(selected: seq<Item>, m: Match) {
    forall i :: 0 <= i < |selected| ==> !Overlap(m.start, m.end, selected[i].start, selected[i].end)
  }

  predicate OnText(text: Text, m: Match) {
    m.start <= m.end <= |text.chars|
  }

  function ItemOf(text: Text, priority: nat, m: Match): Item
    requires OnText(text, m)
  {
    Item(m.start, m.end, priority,
         Expr(if m.reading.Parsed? then Some(m.reading.value) else None,
              text.chars[m.start..m.end], text.zone(m.start)))
  }

  function Take(text: Text, selected: seq<Item>, priority: nat, m: Match): seq<Item>
    requires OnText(text, m)
  {
    if !Free(selected, m) || m.reading.Nothing? then selected else selected + [ItemOf(text, priority, m)]
  }

  predicate RuleOnText(text: Text, matches: seq<Match>) {
    forall i :: 0 <= i < |matches| ==> OnText(text, matches[i])
  }

  predicate RulesOnText(text: Text, rules: seq<seq<Match>>) {
    forall p :: 0 <= p < |rules| ==> RuleOnText(text, rules[p])
  }

  function TakeRule(text: Text, selected: seq<Item>, priority: nat, matches: seq<Match>): seq<Item>
    requires RuleOnText(text, matches)
  {
    if matches == [] then selected
    else
      var init := matches[..|matches| - 1];
      Take(text, TakeRule(text, selected, priority, init), priority, matches[|matches| - 1])
  }

  /** The items in the order in which they are accepted. */
  function Selected(text: Text, rules: seq<seq<Match>>): seq<Item>
    requires RulesOnText(text, rules)
  {
    if rules == [] then []
    else
      var last := |rules| - 1;
      TakeRule(text, Selected(text, rules[..last]), last, rules[last])
  }

  // ----- The sort by start -----

  function InsertByStart(sorted: seq<Item>, item: Item): (r: seq<Item>)
    ensures multiset(r) == multiset(sorted) + multiset{item}
  {
    if sorted == [] || sorted[|sorted| - 1].start <= item.start then sorted + [item]
    else
      assert sorted == sorted[..|sorted| - 1] + [sorted[|sorted| - 1]];
      InsertByStart(sorted[..|sorted| - 1], item) + [sorted[|sorted| - 1]]
  }

  function SortByStart(items: seq<Item>): (r: seq<Item>)
    ensures multiset(r) == multiset(items)
  {
    if items == [] then []
    else
      assert items == items[..|items| - 1] + [items[|items| - 1]];
      InsertByStart(SortByStart(items[..|items| - 1]), items[|items| - 1])
  }

  function Exprs(items: seq<Item>): (r: seq<Expr>)
    ensures |r| == |items| && forall i :: 0 <= i < |items| ==> r[i] == items[i].expr
  {
    seq(|items|, i requires 0 <= i < |items| => items[i].expr)
  }

  method ParseTimeRanges(text: Text, rules: seq<seq<Match>>) returns (exprs: seq<Expr>)
    requires RulesOnText(text, rules)
    ensures exprs == Exprs(SortByStart(Selected(text, rules)))
  {
    var selected: seq<Item> := [];
    for priority := 0 to |rules|
      invariant selected == Selected(text, rules[..priority])
    {
      var matches := rules[priority];
      assert rules[..priority + 1][..priority] == rules[..priority];
      for k := 0 to |matches|
        invariant selected == TakeRule(text, Selected(text, rules[..priority]), priority, matches[..k])
      {
        var m := matches[k];
        assert matches[..k + 1][..k] == matches[..k];
        var shielded := Shielded(selected, m);
        if !shielded && !m.reading.Nothing? {
          selected := selected + [ItemOf(text, priority, m)];
        }
      }
      assert matches[..|matches|] == matches;
    }
    assert rules[..|rules|] == rules;
    exprs := Exprs(SortByStart(selected));
  }

  method Shielded(selected: seq<Item>, m: Match) returns (found: bool)
    ensures found <==> !Free(selected, m)
  {
    for i := 0 to |selected|
      invariant forall j :: 0 <= j < i ==> !Overlap(m.start, m.end, selected[j].start, selected[j].end)
    {
      if Overlap(m.start, m.end, selected[i].start, selected[i].end) {
        return true;
      }
    }
    found := false;
  }

  method ParseTime(text: Text, rules: seq<seq<Match>>) returns (expr: Option<Expr>)
    requires RulesOnText(text, rules)
    ensures var sorted := SortByStart(Selected(text, rules));
            expr == if sorted == [] then None else Some(sorted[0].expr)
  {
    var exprs := ParseTimeRanges(text, rules);
    expr := if exprs == [] then None else Some(exprs[0]);
  }

  // ----- Order of acceptance -----

  /** A match with its priority, in the order in which matches are looked at. */
  datatype Candidate = Candidate(priority: nat, m: Match)

  function Ranked(priority: nat, matches: seq<Match>): (r: seq<Candidate>)
    ensures |r| == |matches| && forall i :: 0 <= i < |matches| ==> r[i] == Candidate(priority, matches[i])
  {
    seq(|matches|, i requires 0 <= i < |matches| => Candidate(priority, matches[i]))
  }

  function Candidates(rules: seq<seq<Match>>): seq<Candidate> {
    if rules == [] then []
    else Candidates(rules[..|rules| - 1]) + Ranked(|rules| - 1, rules[|rules| - 1])
  }

  /** The candidate yields an expression and overlaps none chosen before it. */
  predicate MayTake(candidates: seq<Candidate>, chosen: set<nat>, k: nat)
    requires k < |candidates|
  {
    && !candidates[k].m.reading.Nothing?
    && forall j :: 0 <= j < k && j in chosen ==>
         !Overlap(candidates[k].m.start, candidates[k].m.end, candidates[j].m.start, candidates[j].m.end)
  }

  /** The greedy choice: exactly the candidates that may be taken are chosen. */
  predicate IsGreedy(candidates: seq<Candidate>, chosen: set<nat>) {
    && (forall k :: k in chosen ==> k < |candidates|)
    && forall k :: 0 <= k < |candidates| ==> (k in chosen <==> MayTake(candidates, chosen, k))
  }

  predicate CandidatesOnText(text: Text, candidates: seq<Candidate>) {
    forall k :: 0 <= k < |candidates| ==> OnText(text, candidates[k].m)
  }

  function ItemsOf(text: Text, candidates: seq<Candidate>, chosen: set<nat>): seq<Item>
    requires CandidatesOnText(text, candidates)
  {
    if candidates == [] then []
    else
      var last := |candidates| - 1;
      ItemsOf(text, candidates[..last], chosen) +
      if last in chosen then [ItemOf(text, candidates[last].priority, candidates[last].m)] else []
  }

  /** There is only one greedy choice. */
  lemma {:induction false} GreedyIsUnique(candidates: seq<Candidate>, a: set<nat>, b: set<nat>)
    requires IsGreedy(candidates, a) && IsGreedy(candidates, b)
    ensures a == b
  {
    forall k | 0 <= k < |candidates|
      ensures k in a <==> k in b
    {
      SameChoice(candidates, a, b, k);
    }
  }

  lemma {:induction false} SameChoice(candidates: seq<Candidate>, a: set<nat>, b: set<nat>, k: nat)
    requires IsGreedy(candidates, a) && IsGreedy(candidates, b) && k < |candidates|
    ensures k in a <==> k in b
    decreases k
  {
    forall j | 0 <= j < k
      ensures j in a <==> j in b
    {
      SameChoice(candidates, a, b, j);
    }
    assert MayTake(candidates, a, k) <==> MayTake(candidates, b, k);
  }

  /** Taking candidates one by one in order. */
  function TakeAll(text: Text, candidates: seq<Candidate>): seq<Item>
    requires CandidatesOnText(text, candidates)
  {
    if candidates == [] then []
    else
      var last := candidates[|candidates| - 1];
      Take(text, TakeAll(text, candidates[..|candidates| - 1]), last.priority, last.m)
  }

  lemma {:induction false} RuleIsTaken(text: Text, before: seq<Candidate>, priority: nat, matches: seq<Match>)
    requires CandidatesOnText(text, before) && RuleOnText(text, matches)
    ensures CandidatesOnText(text, before + Ranked(priority, matches))
    ensures TakeAll(text, before + Ranked(priority, matches)) ==
            TakeRule(text, TakeAll(text, before), priority, matches)
  {
    var all := before + Ranked(priority, matches);
    if matches == [] {
      assert all == before;
    } else {
      var init := matches[..|matches| - 1];
      RuleIsTaken(text, before, priority, init);
      assert all[..|all| - 1] == before + Ranked(priority, init);
    }
  }

  lemma {:induction false} RulesAreTaken(text: Text, rules: seq<seq<Match>>)
    requires RulesOnText(text, rules)
    ensures CandidatesOnText(text, Candidates(rules))
    ensures Selected(text, rules) == TakeAll(text, Candidates(rules))
  {
    if rules == [] {
    } else {
      var last := |rules| - 1;
      RulesAreTaken(text, rules[..last]);
      RuleIsTaken(text, Candidates(rules[..last]), last, rules[last]);
    }
  }

  /** The candidates taken, by index. */
  function Chosen(text: Text, candidates: seq<Candidate>): set<nat>
    requires CandidatesOnText(text, candidates)
  {
    if candidates == [] then {}
    else
      var n := |candidates| - 1;
      var before := Chosen(text, candidates[..n]);
      if Free(TakeAll(text, candidates[..n]), candidates[n].m) && !candidates[n].m.reading.Nothing? then before + {n}
      else before
  }

  lemma {:induction false} FreeIff(text: Text, candidates: seq<Candidate>, chosen: set<nat>, m: Match)
    requires CandidatesOnText(text, candidates)
    ensures Free(ItemsOf(text, candidates, chosen), m) <==>
            forall j :: 0 <= j < |candidates| && j in chosen ==>
              !Overlap(m.start, m.end, candidates[j].m.start, candidates[j].m.end)
  {
    if candidates == [] {
    } else {
      var n := |candidates| - 1;
      FreeIff(text, candidates[..n], chosen, m);
      var items, before := ItemsOf(text, candidates, chosen), ItemsOf(text, candidates[..n], chosen);
      assert forall i :: 0 <= i < |before| ==> items[i] == before[i];
      if n in chosen {
        assert items[|before|] == ItemOf(text, candidates[n].priority, candidates[n].m);
      }
    }
  }

  lemma {:induction false} TakenAreChosen(text: Text, candidates: seq<Candidate>)
    requires CandidatesOnText(text, candidates)
    ensures TakeAll(text, candidates) == ItemsOf(text, candidates, Chosen(text, candidates))
    ensures forall k :: k in Chosen(text, candidates) ==> k < |candidates|
  {
    if candidates == [] {
    } else {
      var init := candidates[..|candidates| - 1];
      TakenAreChosen(text, init);
      SameItems(text, init, Chosen(text, init), Chosen(text, candidates));
    }
  }

  lemma {:induction false} ChosenIsGreedy(text: Text, candidates: seq<Candidate>)
    requires CandidatesOnText(text, candidates)
    ensures IsGreedy(candidates, Chosen(text, candidates))
  {
    if candidates == [] {
    } else {
      var n := |candidates| - 1;
      var init := candidates[..n];
      ChosenIsGreedy(text, init);
      TakenAreChosen(text, init);
      FreeIff(text, init, Chosen(text, init), candidates[n].m);
      SameMayTake(candidates, Chosen(text, candidates), Chosen(text, init));
    }
  }

  /** Whether a candidate may be taken does not depend on those after it. */
  lemma SameMayTake(candidates: seq<Candidate>, chosen: set<nat>, before: set<nat>)
    requires candidates != [] && forall k :: 0 <= k < |candidates| - 1 ==> (k in chosen <==> k in before)
    ensures forall k :: 0 <= k < |candidates| - 1 ==>
              (MayTake(candidates, chosen, k) <==> MayTake(candidates[..|candidates| - 1], before, k))
  {
  }

  lemma {:induction false} SameItems(text: Text, candidates: seq<Candidate>, a: set<nat>, b: set<nat>)
    requires CandidatesOnText(text, candidates)
    requires forall k :: 0 <= k < |candidates| ==> (k in a <==> k in b)
    ensures ItemsOf(text, candidates, a) == ItemsOf(text, candidates, b)
  {
    if candidates == [] {
    } else {
      SameItems(text, candidates[..|candidates| - 1], a, b);
    }
  }

  /**
   The selection is the one greedy choice over all matches in order of rule, then place: a match that yields
   an expression is dropped exactly if it overlaps one accepted before it.
   */
  lemma SelectionIsGreedy(text: Text, rules: seq<seq<Match>>, chosen: set<nat>)
    requires RulesOnText(text, rules) && IsGreedy(Candidates(rules), chosen)
    ensures CandidatesOnText(text, Candidates(rules))
    ensures Selected(text, rules) == ItemsOf(text, Candidates(rules), chosen)
  {
    RulesAreTaken(text, rules);
    TakenAreChosen(text, Candidates(rules));
    ChosenIsGreedy(text, Candidates(rules));
    GreedyIsUnique(Candidates(rules), chosen, Chosen(text, Candidates(rules)));
  }

  // ----- The result -----

  predicate Disjoint(items: seq<Item>) {
    forall i, j :: 0 <= i < j < |items| ==> !Overlap(items[i].start, items[i].end, items[j].start, items[j].end)
  }

  lemma {:induction false} TakeAllDisjoint(text: Text, candidates: seq<Candidate>)
    requires CandidatesOnText(text, candidates)
    ensures Disjoint(TakeAll(text, candidates))
  {
    if candidates == [] {
    } else {
      TakeAllDisjoint(text, candidates[..|candidates| - 1]);
    }
  }

  lemma {:induction false} TakeAllKeeps(text: Text, candidates: seq<Candidate>, n: nat)
    requires CandidatesOnText(text, candidates) && n <= |candidates|
    ensures TakeAll(text, candidates[..n]) <= TakeAll(text, candidates)
    decreases |candidates|
  {
    if n < |candidates| {
      var init := candidates[..|candidates| - 1];
      assert init[..n] == candidates[..n];
      TakeAllKeeps(text, init, n);
    } else {
      assert candidates[..n] == candidates;
    }
  }

  lemma {:induction false} CandidateOf(rules: seq<seq<Match>>, p: nat, k: nat) returns (c: nat)
    requires p < |rules| && k < |rules[p]|
    ensures c < |Candidates(rules)| && Candidates(rules)[c] == Candidate(p, rules[p][k])
  {
    var last := |rules| - 1;
    if p == last {
      c := |Candidates(rules[..last])| + k;
    } else {
      c := CandidateOf(rules[..last], p, k);
    }
  }

  /**
   The selected spans do not overlap, and every match that yields an expression is selected
   or overlaps one that is.
   */
  lemma DisjointAndMaximal(text: Text, rules: seq<seq<Match>>)
    requires RulesOnText(text, rules)
    ensures Disjoint(Selected(text, rules))
    ensures forall p, k :: 0 <= p < |rules| && 0 <= k < |rules[p]| && !rules[p][k].reading.Nothing? ==>
              ItemOf(text, p, rules[p][k]) in Selected(text, rules) || !Free(Selected(text, rules), rules[p][k])
  {
    RulesAreTaken(text, rules);
    var candidates := Candidates(rules);
    TakeAllDisjoint(text, candidates);
    forall p, k | 0 <= p < |rules| && 0 <= k < |rules[p]| && !rules[p][k].reading.Nothing?
      ensures ItemOf(text, p, rules[p][k]) in Selected(text, rules) || !Free(Selected(text, rules), rules[p][k])
    {
      var c := CandidateOf(rules, p, k);
      var m := rules[p][k];
      TakeAllKeeps(text, candidates, c);
      TakeAllKeeps(text, candidates, c + 1);
      assert candidates[..c + 1][..c] == candidates[..c];
      var before, upTo, all :=
        TakeAll(text, candidates[..c]), TakeAll(text, candidates[..c + 1]), TakeAll(text, candidates);
      if Free(before, m) {
        assert upTo[|before|] == ItemOf(text, p, m);
        assert all[|before|] == upTo[|before|];
      } else {
        var i :| 0 <= i < |before| && Overlap(m.start, m.end, before[i].start, before[i].end);
        assert all[i] == before[i];
      }
    }
  }

  /** A rule added at the end of the table neither removes nor alters an expression selected without it. */
  lemma LaterRuleOnlyAdds(text: Text, rules: seq<seq<Match>>, rule: seq<Match>)
    requires RulesOnText(text, rules) && RuleOnText(text, rule)
    ensures Selected(text, rules) <= Selected(text, rules + [rule])
    ensures multiset(SortByStart(Selected(text, rules))) <= multiset(SortByStart(Selected(text, rules + [rule])))
  {
    var more := rules + [rule];
    assert more[..|rules|] == rules;
    RulesAreTaken(text, more);
    RulesAreTaken(text, rules);
    assert Candidates(more) == Candidates(rules) + Ranked(|rules|, rule);
    TakeAllKeeps(text, Candidates(more), |Candidates(rules)|);
    assert Candidates(more)[..|Candidates(rules)|] == Candidates(rules);
    var before, after := Selected(text, rules), Selected(text, more);
    assert after == before + after[|before|..];
  }

  predicate ByStart(items: seq<Item>) {
    forall i, j :: 0 <= i < j < |items| ==> items[i].start <= items[j].start
  }

  lemma {:induction false} InsertKeepsOrder(sorted: seq<Item>, item: Item)
    requires ByStart(sorted)
    ensures ByStart(InsertByStart(sorted, item))
    ensures forall i :: 0 <= i < |InsertByStart(sorted, item)| ==>
              InsertByStart(sorted, item)[i] == item || InsertByStart(sorted, item)[i] in sorted
  {
    if sorted == [] || sorted[|sorted| - 1].start <= item.start {
    } else {
      var init, last := sorted[..|sorted| - 1], sorted[|sorted| - 1];
      InsertKeepsOrder(init, item);
      var inserted := InsertByStart(init, item);
      forall i | 0 <= i < |inserted|
        ensures inserted[i].start <= last.start && (inserted[i] == item || inserted[i] in sorted)
      {
        if inserted[i] in init {
          var j :| 0 <= j < |init| && init[j] == inserted[i];
          assert sorted[j] == inserted[i];
        }
      }
    }
  }

  lemma {:induction false} SortOrders(items: seq<Item>)
    ensures ByStart(SortByStart(items))
  {
    if items == [] {
    } else {
      SortOrders(items[..|items| - 1]);
      InsertKeepsOrder(SortByStart(items[..|items| - 1]), items[|items| - 1]);
    }
  }

  predicate NonEmpty(matches: seq<Match>) {
    forall k :: 0 <= k < |matches| ==> matches[k].start < matches[k].end
  }

  predicate AllNonEmpty(items: seq<Item>) {
    forall k :: 0 <= k < |items| ==> items[k].start < items[k].end
  }

  /** The expressions come in the order of the text, each ending before the next begins. */
  lemma {:induction false} InTextOrder(text: Text, rules: seq<seq<Match>>)
    requires RulesOnText(text, rules)
    requires forall p :: 0 <= p < |rules| ==> NonEmpty(rules[p])
    ensures var sorted := SortByStart(Selected(text, rules));
            forall i, j :: 0 <= i < j < |sorted| ==> sorted[i].end <= sorted[j].start
  {
    var selected := Selected(text, rules);
    var sorted := SortByStart(selected);
    SortOrders(selected);
    DisjointAndMaximal(text, rules);
    SelectedNonEmpty(text, rules);
    forall i, j | 0 <= i < j < |sorted|
      ensures sorted[i].end <= sorted[j].start
    {
      SortedDisjoint(selected, sorted, i, j);
    }
  }

  lemma {:induction false} TakeRuleNonEmpty(text: Text, selected: seq<Item>, priority: nat, matches: seq<Match>)
    requires RuleOnText(text, matches) && NonEmpty(matches) && AllNonEmpty(selected)
    ensures AllNonEmpty(TakeRule(text, selected, priority, matches))
  {
    if matches == [] {
    } else {
      var init := matches[..|matches| - 1];
      TakeRuleNonEmpty(text, selected, priority, init);
      assert matches[|matches| - 1].start < matches[|matches| - 1].end;
    }
  }

  lemma {:induction false} SelectedNonEmpty(text: Text, rules: seq<seq<Match>>)
    requires RulesOnText(text, rules)
    requires forall p :: 0 <= p < |rules| ==> NonEmpty(rules[p])
    ensures AllNonEmpty(Selected(text, rules))
  {
    if rules == [] {
    } else {
      var last := |rules| - 1;
      SelectedNonEmpty(text, rules[..last]);
      TakeRuleNonEmpty(text, Selected(text, rules[..last]), last, rules[last]);
    }
  }

  /** Two places of a sorted sequence hold two members that do not overlap, so the earlier one ends first. */
  lemma SortedDisjoint(items: seq<Item>, sorted: seq<Item>, i: nat, j: nat)
    requires multiset(sorted) == multiset(items) && Disjoint(items) && ByStart(sorted)
    requires AllNonEmpty(items)
    requires i < j < |sorted|
    ensures sorted[i].end <= sorted[j].start
  {
    var a, b := sorted[i], sorted[j];
    assert a in multiset(items) && b in multiset(items);
    var p :| 0 <= p < |items| && items[p] == a;
    var q :| 0 <= q < |items| && items[q] == b;
    if a == b {
      TwiceInSorted(sorted, i, j);
      OnceInDisjoint(items, p);
      assert false;
    }
  }

  lemma TwiceInSorted(sorted: seq<Item>, i: nat, j: nat)
    requires i < j < |sorted| && sorted[i] == sorted[j]
    ensures multiset(sorted)[sorted[i]] >= 2
  {
    assert sorted == sorted[..i] + [sorted[i]] + sorted[i + 1..j] + [sorted[j]] + sorted[j + 1..];
  }

  lemma OnceInDisjoint(items: seq<Item>, p: nat)
    requires Disjoint(items) && p < |items|
    requires AllNonEmpty(items)
    ensures multiset(items)[items[p]] == 1
  {
    var before, after := items[..p], items[p + 1..];
    assert items == before + [items[p]] + after;
    assert items[p] !in before;
    assert items[p] !in after;
  }

  // ----- What an expression tells -----

  predicate Inside(i: nat, start: nat, end: nat) {
    start <= i < end
  }

  /** Two spans that are not empty overlap exactly if they share a place. */
  lemma OverlapIsShared(start: nat, end: nat, otherStart: nat, otherEnd: nat)
    requires start < end && otherStart < otherEnd
    ensures Overlap(start, end, otherStart, otherEnd) <==>
            exists i :: Inside(i, start, end) && Inside(i, otherStart, otherEnd)
  {
    if Overlap(start, end, otherStart, otherEnd) {
      var i := if start < otherStart then otherStart else start;
      assert Inside(i, start, end) && Inside(i, otherStart, otherEnd);
    }
  }

  /** An empty span overlaps a span exactly if it stands strictly inside it. */
  lemma EmptyInside(at: nat, otherStart: nat, otherEnd: nat)
    ensures Overlap(at, at, otherStart, otherEnd) <==> otherStart < at < otherEnd
  {
  }

  /** The item is what the match says: its span and rule, its value if it was parsed, its text, and the zone there. */
  predicate Tells(text: Text, item: Item, priority: nat, m: Match) {
    && m.start <= m.end <= |text.chars|
    && item.start == m.start && item.end == m.end && item.priority == priority
    && item.expr.raw == text.chars[m.start..m.end] && item.expr.timezone == text.zone(m.start)
    && match m.reading
       case Parsed(value) => item.expr.value == Some(value)
       case Invalid => item.expr.value == None
       case Nothing => false
  }

  predicate ToldBy(text: Text, candidates: seq<Candidate>, item: Item) {
    exists c :: 0 <= c < |candidates| && Tells(text, item, candidates[c].priority, candidates[c].m)
  }

  /** Every item taken tells one of the matches. */
  lemma {:induction false} TakenTell(text: Text, candidates: seq<Candidate>, i: nat)
    requires CandidatesOnText(text, candidates) && i < |TakeAll(text, candidates)|
    ensures ToldBy(text, candidates, TakeAll(text, candidates)[i])
  {
    if candidates == [] {
    } else {
      var init, last := candidates[..|candidates| - 1], candidates[|candidates| - 1];
      if i < |TakeAll(text, init)| {
        TakenTell(text, init, i);
        var c :| 0 <= c < |init| && Tells(text, TakeAll(text, init)[i], init[c].priority, init[c].m);
        assert Tells(text, TakeAll(text, candidates)[i], candidates[c].priority, candidates[c].m);
      } else {
        assert Tells(text, TakeAll(text, candidates)[i], last.priority, last.m);
      }
    }
  }

  /** Every expression selected is that of a match of some rule: its value, its own text, and the zone at its place. */
  lemma SelectedTell(text: Text, rules: seq<seq<Match>>, i: nat) returns (p: nat, k: nat)
    requires RulesOnText(text, rules) && i < |Selected(text, rules)|
    ensures p < |rules| && k < |rules[p]| && Tells(text, Selected(text, rules)[i], p, rules[p][k])
  {
    RulesAreTaken(text, rules);
    TakenTell(text, Candidates(rules), i);
    var item := Selected(text, rules)[i];
    var c :| 0 <= c < |Candidates(rules)| && Tells(text, item, Candidates(rules)[c].priority, Candidates(rules)[c].m);
    p, k := MatchOf(rules, c);
  }

  /** Every candidate is a match of a rule. */
  lemma {:induction false} MatchOf(rules: seq<seq<Match>>, c: nat) returns (p: nat, k: nat)
    requires c < |Candidates(rules)|
    ensures p < |rules| && k < |rules[p]| && Candidates(rules)[c] == Candidate(p, rules[p][k])
  {
    var last := |rules| - 1;
    var before := |Candidates(rules[..last])|;
    if c < before {
      p, k := MatchOf(rules[..last], c);
    } else {
      p, k := last, c - before;
    }
  }
}
