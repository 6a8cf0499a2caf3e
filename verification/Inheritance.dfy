/** Inheritance of times and attributes between the clauses of a split question, and their dependencies. */
module Inheritance {
  import opened Wrappers

  datatype Role = Main | TimeLimit | Constraint | Output | Context

  /**
   A parsed time: whether it dates anything or asks for the latest before an anchor, its key
   for comparison, and its contents.
   */
  datatype Time = Time(dated: bool, latest: bool, key: string, value: string)

  datatype Attribute = Author | Venue | Language | DocType

  const ATTRIBUTES: seq<Attribute> := [Author, Venue, Language, DocType]

  /** What the analysis of a clause's words says about its place in a chain of steps. */
  datatype Words = Words(refersToDate: bool, analyses: bool, fetches: bool, calculates: bool, refersBack: bool)

  datatype Clause = Clause(role: Role, time: Time, ranges: seq<Time>, attributes: map<Attribute, string>, words: Words)

  datatype Source = Nowhere | TimeGroup | FromClause(number: nat)

  datatype Sub = Sub(
    role: Role,
    time: Time,
    ranges: seq<Time>,
    inheritedTimes: Option<seq<Time>>,
    inheritFrom: Source,
    attributes: map<Attribute, string>,
    inheritedAttributes: map<Attribute, string>)

  predicate Has(t: Time) {
    t.dated || t.latest
  }

  function Value(m: map<Attribute, string>, a: Attribute): string {
    if a in m then m[a] else ""
  }

  predicate KeyIn(times: seq<Time>, key: string) {
    exists i :: 0 <= i < |times| && times[i].key == key
  }

  // ----- Which group a clause inherits -----

  /** The last main clause before `i`. */
  function PreviousMain(clauses: seq<Clause>, i: nat): (p: Option<nat>)
    requires i <= |clauses|
    ensures p.Some? ==> p.value < i && clauses[p.value].role.Main?
    ensures forall j :: 0 <= j < i && (p.None? || p.value < j) ==> !clauses[j].role.Main?
  {
    if i == 0 then None
    else if clauses[i - 1].role.Main? then Some(i - 1)
    else PreviousMain(clauses, i - 1)
  }

  predicate AnyTime(clauses: seq<Clause>, lo: nat, hi: nat)
    requires hi <= |clauses|
  {
    exists k :: lo <= k < hi && clauses[k].role.TimeLimit?
  }

  predicate Resolved(c: Clause) {
    c.role.TimeLimit? && Has(c.time)
  }

  /** The resolved times standing from `lo` up to `hi`, each key once. */
  function Collected(clauses: seq<Clause>, lo: nat, hi: nat): seq<Time>
    requires hi <= |clauses|
    decreases hi
  {
    if hi <= lo then []
    else
      var before := Collected(clauses, lo, hi - 1);
      var c := clauses[hi - 1];
      if Resolved(c) && !KeyIn(before, c.time.key) then before + [c.time] else before
  }

  function After(p: Option<nat>): nat {
    if p.Some? then p.value + 1 else 0
  }

  /**
   The group before `i`: the times since the previous main if any time clause stands there,
   else that main's group.
   */
  function Incoming(clauses: seq<Clause>, i: nat): seq<Time>
    requires i <= |clauses|
    decreases i, 0
  {
    var p := PreviousMain(clauses, i);
    if p.None? || AnyTime(clauses, After(p), i) then Collected(clauses, After(p), i)
    else Effective(clauses, p.value)
  }

  /** The group a main clause works with and leaves behind. */
  function Effective(clauses: seq<Clause>, i: nat): seq<Time>
    requires i < |clauses|
    decreases i, 1
  {
    var c, incoming := clauses[i], Incoming(clauses, i);
    if c.time.latest && incoming != [] then incoming + [c.time]
    else if Has(c.time) then if c.ranges != [] then c.ranges else [c.time]
    else incoming
  }

  /** The main clause's own time replaces the group before it. */
  predicate Replaces(clauses: seq<Clause>, i: nat)
    requires i < |clauses|
  {
    Has(clauses[i].time) && !(clauses[i].time.latest && Incoming(clauses, i) != [])
  }

  /** The last resolved time clause before `i`. */
  function NearestTime(clauses: seq<Clause>, i: nat): (s: Option<nat>)
    requires i <= |clauses|
    ensures s.Some? ==> s.value < i && Resolved(clauses[s.value])
    ensures forall j :: 0 <= j < i && (s.None? || s.value < j) ==> !Resolved(clauses[j])
  {
    if i == 0 then None
    else if Resolved(clauses[i - 1]) then Some(i - 1)
    else NearestTime(clauses, i - 1)
  }

  /** The value of an attribute in the nearest main clause before `i` that names one. */
  function Named(clauses: seq<Clause>, i: nat, a: Attribute): string
    requires i <= |clauses|
  {
    if i == 0 then ""
    else if clauses[i - 1].role.Main? && Value(clauses[i - 1].attributes, a) != "" then
      Value(clauses[i - 1].attributes, a)
    else Named(clauses, i - 1, a)
  }

  predicate InheritsTimes(clauses: seq<Clause>, i: nat)
    requires i < |clauses|
  {
    clauses[i].role.Main? && Incoming(clauses, i) != [] && !Replaces(clauses, i)
  }

  /** The times of the result of clause `i`. */
  predicate TimesRight(clauses: seq<Clause>, i: nat, sub: Sub)
    requires i < |clauses|
  {
    var c, incoming := clauses[i], Incoming(clauses, i);
    && sub.role == c.role
    && sub.inheritedTimes == (if InheritsTimes(clauses, i) then Some(incoming) else None)
    && sub.ranges == (if c.role.Main? && (Has(c.time) || incoming != []) then Effective(clauses, i) else c.ranges)
    && sub.time == if InheritsTimes(clauses, i) && !Has(c.time) then incoming[0] else c.time
  }

  predicate SourceRight(clauses: seq<Clause>, i: nat, sub: Sub)
    requires i < |clauses|
  {
    var s := NearestTime(clauses, i);
    sub.inheritFrom == if !InheritsTimes(clauses, i) then Nowhere
                       else if s.Some? then FromClause(s.value + 1) else TimeGroup
  }

  /**
   A main clause has its own attributes and, for those it does not name, those of the nearest
   main before it that does.
   */
  predicate AttributesRight(clauses: seq<Clause>, i: nat, sub: Sub)
    requires i < |clauses|
  {
    forall a: Attribute ::
      var own := Value(clauses[i].attributes, a);
      var inherits := clauses[i].role.Main? && own == "" && Named(clauses, i, a) != "";
      && Value(sub.attributes, a) == (if inherits then Named(clauses, i, a) else own)
      && Value(sub.inheritedAttributes, a) == if inherits then Named(clauses, i, a) else ""
  }

  // ----- The loop -----

  /** The result of a clause before the last pass, which names sources. */
  predicate Unlabelled(clauses: seq<Clause>, i: nat, sub: Sub)
    requires i < |clauses|
  {
    && TimesRight(clauses, i, sub)
    && AttributesRight(clauses, i, sub)
    && sub.inheritFrom == if InheritsTimes(clauses, i) then TimeGroup else Nowhere
  }

  predicate AllUnlabelled(clauses: seq<Clause>, results: seq<Sub>) {
    && |results| <= |clauses|
    && forall i :: 0 <= i < |results| ==> Unlabelled(clauses, i, results[i])
  }

  predicate Remembers(clauses: seq<Clause>, i: nat, context: map<Attribute, string>)
    requires i <= |clauses|
  {
    forall a: Attribute :: Value(context, a) == Named(clauses, i, a)
  }

  function Bare(c: Clause): Sub {
    Sub(c.role, c.time, c.ranges, None, Nowhere, c.attributes, map[])
  }

  /** Whether the group was used by a main clause with no time clause since. */
  predicate Used(clauses: seq<Clause>, i: nat)
    requires i <= |clauses|
  {
    var p := PreviousMain(clauses, i);
    p.Some? && !AnyTime(clauses, After(p), i)
  }

  method ApplyInheritance(clauses: seq<Clause>) returns (results: seq<Sub>)
    ensures |results| == |clauses|
    ensures forall i :: 0 <= i < |clauses| ==>
              && TimesRight(clauses, i, results[i])
              && SourceRight(clauses, i, results[i])
              && AttributesRight(clauses, i, results[i])
  {
    results := [];
    var pending: seq<Time> := [];
    var consumed := false;
    var context: map<Attribute, string> := map[];
    for i := 0 to |clauses|
      invariant |results| == i && AllUnlabelled(clauses, results)
      invariant pending == Incoming(clauses, i)
      invariant consumed == Used(clauses, i)
      invariant Remembers(clauses, i, context)
    {
      var c := clauses[i];
      var sub := Bare(c);
      GroupStep(clauses, i);
      if c.role.TimeLimit? {
        if consumed {
          pending := [];
          consumed := false;
        }
        if Has(c.time) {
          var known := HasKey(pending, c.time.key);
          if !known {
            pending := pending + [c.time];
          }
        }
        OtherRight(clauses, i, context);
      } else if c.role.Main? {
        ghost var before := context;
        sub, pending := UseGroup(sub, pending);
        consumed := true;
        var attributes, inherited := InheritAttributes(sub.attributes, context);
        ghost var used := sub;
        sub := sub.(attributes := attributes, inheritedAttributes := inherited);
        context := RememberAttributes(attributes, context);
        MainRight(clauses, i, used, attributes, inherited, before, context);
      } else {
        OtherRight(clauses, i, context);
      }
      results := results + [sub];
    }
    results := LabelSources(clauses, results);
  }

  lemma OtherRight(clauses: seq<Clause>, i: nat, context: map<Attribute, string>)
    requires i < |clauses| && !clauses[i].role.Main? && Remembers(clauses, i, context)
    ensures Unlabelled(clauses, i, Bare(clauses[i])) && Remembers(clauses, i + 1, context)
  {
    forall a: Attribute
      ensures Named(clauses, i + 1, a) == Named(clauses, i, a)
    {
    }
  }

  lemma MainRight(clauses: seq<Clause>, i: nat, used: Sub, attributes: map<Attribute, string>,
                  inherited: map<Attribute, string>,
                  context: map<Attribute, string>, remembered: map<Attribute, string>)
    requires i < |clauses| && clauses[i].role.Main? && Remembers(clauses, i, context)
    requires TimesRight(clauses, i, used)
    requires used.inheritFrom == if InheritsTimes(clauses, i) then TimeGroup else Nowhere
    requires forall a: Attribute ::
               var inherits := Value(clauses[i].attributes, a) == "" && Value(context, a) != "";
               && Value(attributes, a) == (if inherits then Value(context, a) else Value(clauses[i].attributes, a))
               && Value(inherited, a) == if inherits then Value(context, a) else ""
    requires forall a: Attribute ::
               Value(remembered, a) == if Value(attributes, a) != "" then Value(attributes, a) else Value(context, a)
    ensures Unlabelled(clauses, i, used.(attributes := attributes, inheritedAttributes := inherited))
    ensures Remembers(clauses, i + 1, remembered)
  {
    var sub := used.(attributes := attributes, inheritedAttributes := inherited);
    forall a: Attribute
      ensures Value(remembered, a) == Named(clauses, i + 1, a)
    {
    }
  }

  /** What a main clause does with the group: extend it, replace it by its own times, or inherit it. */
  method UseGroup(clause: Sub, group: seq<Time>) returns (sub: Sub, pending: seq<Time>)
    ensures var own := if clause.ranges != [] then clause.ranges else [clause.time];
            var grows := clause.time.latest && group != [];
            var inherits := group != [] && (grows || !Has(clause.time));
            && pending == (if grows then group + [clause.time] else if Has(clause.time) then own else group)
            && sub == clause.(ranges := if Has(clause.time) || group != [] then pending else clause.ranges,
                              time := if inherits && !grows then group[0] else clause.time,
                              inheritedTimes := if inherits then Some(group) else clause.inheritedTimes,
                              inheritFrom := if inherits then TimeGroup else clause.inheritFrom)
  {
    sub, pending := clause, group;
    if sub.time.latest && pending != [] {
      sub := sub.(ranges := pending + [sub.time], inheritedTimes := Some(pending), inheritFrom := TimeGroup);
      pending := sub.ranges;
    } else if Has(sub.time) {
      pending := if sub.ranges != [] then sub.ranges else [sub.time];
      sub := sub.(ranges := pending);
    } else if pending != [] {
      sub := sub.(ranges := pending, time := pending[0], inheritedTimes := Some(pending), inheritFrom := TimeGroup);
    }
  }

  /** How one clause moves the group on. */
  lemma GroupStep(clauses: seq<Clause>, i: nat)
    requires i < |clauses|
    ensures var c := clauses[i];
            var incoming, next := Incoming(clauses, i), Incoming(clauses, i + 1);
            var kept := if Used(clauses, i) then [] else incoming;
            && (c.role.Main? ==> next == Effective(clauses, i) && Used(clauses, i + 1))
            && (c.role.TimeLimit? ==>
                  && !Used(clauses, i + 1)
                  && next == if Has(c.time) && !KeyIn(kept, c.time.key) then kept + [c.time] else kept)
            && (!c.role.Main? && !c.role.TimeLimit? ==>
                  next == incoming && (Used(clauses, i + 1) <==> Used(clauses, i)))
  {
    var p, c := PreviousMain(clauses, i), clauses[i];
    if c.role.TimeLimit? {
      assert AnyTime(clauses, After(p), i + 1);
      if p.Some? && !AnyTime(clauses, After(p), i) {
        NoTimesCollected(clauses, After(p), i);
      }
    } else if !c.role.Main? {
      assert AnyTime(clauses, After(p), i + 1) ==> AnyTime(clauses, After(p), i);
    }
  }

  lemma {:induction false} NoTimesCollected(clauses: seq<Clause>, lo: nat, hi: nat)
    requires hi <= |clauses| && !AnyTime(clauses, lo, hi)
    ensures Collected(clauses, lo, hi) == []
    decreases hi
  {
    if lo >= hi {
    } else {
      assert !clauses[hi - 1].role.TimeLimit?;
      assert !AnyTime(clauses, lo, hi - 1);
      NoTimesCollected(clauses, lo, hi - 1);
    }
  }

  method HasKey(times: seq<Time>, key: string) returns (found: bool)
    ensures found <==> KeyIn(times, key)
  {
    for i := 0 to |times|
      invariant forall j :: 0 <= j < i ==> times[j].key != key
    {
      if times[i].key == key {
        return true;
      }
    }
    found := false;
  }

  method InheritAttributes(own: map<Attribute, string>, context: map<Attribute, string>)
    returns (attributes: map<Attribute, string>, inherited: map<Attribute, string>)
    ensures forall a: Attribute ::
              var inherits := Value(own, a) == "" && Value(context, a) != "";
              && Value(attributes, a) == (if inherits then Value(context, a) else Value(own, a))
              && Value(inherited, a) == if inherits then Value(context, a) else ""
  {
    attributes, inherited := own, map[];
    for n := 0 to |ATTRIBUTES|
      invariant forall a: Attribute ::
                  var inherits := a in ATTRIBUTES[..n] && Value(own, a) == "" && Value(context, a) != "";
                  && Value(attributes, a) == (if inherits then Value(context, a) else Value(own, a))
                  && Value(inherited, a) == if inherits then Value(context, a) else ""
    {
      var a := ATTRIBUTES[n];
      if Value(attributes, a) == "" && Value(context, a) != "" {
        inherited := inherited[a := context[a]];
        attributes := attributes[a := context[a]];
      }
    }
    AllAttributes();
  }

  method RememberAttributes(attributes: map<Attribute, string>, context: map<Attribute, string>)
    returns (remembered: map<Attribute, string>)
    ensures forall a: Attribute ::
              Value(remembered, a) == if Value(attributes, a) != "" then Value(attributes, a) else Value(context, a)
  {
    remembered := context;
    for n := 0 to |ATTRIBUTES|
      invariant forall a: Attribute ::
                  Value(remembered, a) ==
                  if a in ATTRIBUTES[..n] && Value(attributes, a) != "" then Value(attributes, a) else Value(context, a)
    {
      var a := ATTRIBUTES[n];
      if Value(attributes, a) != "" {
        remembered := remembered[a := attributes[a]];
      }
    }
    AllAttributes();
  }

  lemma AllAttributes()
    ensures forall a: Attribute :: a in ATTRIBUTES[..|ATTRIBUTES|]
  {
    forall a: Attribute
      ensures a in ATTRIBUTES[..|ATTRIBUTES|]
    {
      assert ATTRIBUTES[..|ATTRIBUTES|] == ATTRIBUTES;
      match a
      case Author => assert ATTRIBUTES[0] == a;
      case Venue => assert ATTRIBUTES[1] == a;
      case Language => assert ATTRIBUTES[2] == a;
      case DocType => assert ATTRIBUTES[3] == a;
    }
  }

  /** The last pass: an inheriting clause names the nearest resolved time clause before it. */
  method LabelSources(clauses: seq<Clause>, subs: seq<Sub>) returns (results: seq<Sub>)
    requires |subs| == |clauses| && AllUnlabelled(clauses, subs)
    ensures |results| == |subs|
    ensures forall i :: 0 <= i < |subs| ==>
              TimesRight(clauses, i, results[i]) && SourceRight(clauses, i, results[i]) &&
                AttributesRight(clauses, i, results[i])
  {
    results := [];
    for i := 0 to |subs|
      invariant |results| == i
      invariant forall j :: 0 <= j < i ==>
                  TimesRight(clauses, j, results[j]) && SourceRight(clauses, j, results[j]) &&
                    AttributesRight(clauses, j, results[j])
    {
      var sub := subs[i];
      if sub.inheritFrom.TimeGroup? {
        var back := i;
        while back > 0 && !(subs[back - 1].role.TimeLimit? && Has(subs[back - 1].time))
          invariant 0 <= back <= i
          invariant NearestTime(clauses, i) == NearestTime(clauses, back)
        {
          back := back - 1;
        }
        if back > 0 {
          sub := sub.(inheritFrom := FromClause(back));
        }
      }
      results := results + [sub];
    }
  }
}
