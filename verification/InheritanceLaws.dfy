/** What the inherited groups, attributes and labels mean. */
module InheritanceLaws {
  import opened Wrappers
  import opened Inheritance

  // ----- Groups -----

  /** The time is that of a resolved clause from `lo` up to `hi`. */
  predicate Stands(clauses: seq<Clause>, lo: nat, hi: nat, t: Time) {
    exists k :: lo <= k < hi <= |clauses| && Resolved(clauses[k]) && clauses[k].time == t
  }

  predicate AllStand(clauses: seq<Clause>, lo: nat, hi: nat, group: seq<Time>) {
    forall i :: 0 <= i < |group| ==> Stands(clauses, lo, hi, group[i])
  }

  predicate OneForEach(clauses: seq<Clause>, lo: nat, hi: nat, group: seq<Time>) {
    forall k :: lo <= k < hi <= |clauses| && Resolved(clauses[k]) ==> KeyIn(group, clauses[k].time.key)
  }

  predicate DistinctKeys(group: seq<Time>) {
    forall i, j :: 0 <= i < j < |group| ==> group[i].key != group[j].key
  }

  lemma KeyInMore(group: seq<Time>, t: Time, key: string)
    requires KeyIn(group, key) || t.key == key
    ensures KeyIn(group + [t], key)
  {
    if KeyIn(group, key) {
      var i :| 0 <= i < |group| && group[i].key == key;
      assert (group + [t])[i].key == key;
    } else {
      assert (group + [t])[|group|].key == key;
    }
  }

  /**
   A collected group holds each key once, only times of resolved clauses in the stretch, and
   a time for each of their keys.
   */
  lemma {:induction false} CollectedIsDeduplicated(clauses: seq<Clause>, lo: nat, hi: nat)
    requires hi <= |clauses|
    ensures DistinctKeys(Collected(clauses, lo, hi))
    ensures AllStand(clauses, lo, hi, Collected(clauses, lo, hi))
    ensures OneForEach(clauses, lo, hi, Collected(clauses, lo, hi))
    decreases hi
  {
    if lo >= hi {
    } else {
      CollectedIsDeduplicated(clauses, lo, hi - 1);
      var before, group, c := Collected(clauses, lo, hi - 1), Collected(clauses, lo, hi), clauses[hi - 1];
      forall i | 0 <= i < |before|
        ensures Stands(clauses, lo, hi, before[i])
      {
        assert Stands(clauses, lo, hi - 1, before[i]);
      }
      if Resolved(c) {
        assert Stands(clauses, lo, hi, c.time);
        forall k | lo <= k < hi && Resolved(clauses[k])
          ensures KeyIn(before + [c.time], clauses[k].time.key)
        {
          KeyInMore(before, c.time, clauses[k].time.key);
        }
      }
    }
  }

  /** A resolved clause of the stretch from `lo` on whose key no resolved clause before it has. */
  predicate FirstOfKey(clauses: seq<Clause>, lo: nat, k: nat) {
    && lo <= k < |clauses| && Resolved(clauses[k])
    && forall j :: lo <= j < k && Resolved(clauses[j]) ==> clauses[j].time.key != clauses[k].time.key
  }

  /** A resolved clause adds its time to the group exactly if it is the first of its key. */
  lemma TakenIffFirst(clauses: seq<Clause>, lo: nat, k: nat)
    requires lo <= k < |clauses| && Resolved(clauses[k])
    ensures KeyIn(Collected(clauses, lo, k), clauses[k].time.key) <==> !FirstOfKey(clauses, lo, k)
  {
    CollectedIsDeduplicated(clauses, lo, k);
    var before, key := Collected(clauses, lo, k), clauses[k].time.key;
    if i :| 0 <= i < |before| && before[i].key == key {
      assert Stands(clauses, lo, k, before[i]);
    }
  }

  lemma {:induction false} FirstIsCollected(clauses: seq<Clause>, lo: nat, hi: nat, k: nat)
    requires k < hi <= |clauses| && FirstOfKey(clauses, lo, k)
    ensures clauses[k].time in Collected(clauses, lo, hi)
    decreases hi
  {
    if k == hi - 1 {
      TakenIffFirst(clauses, lo, k);
    } else {
      FirstIsCollected(clauses, lo, hi - 1, k);
    }
  }

  /** A resolved clause has an earlier one, or itself, that is the first of its key. */
  lemma {:induction false} SomeIsFirst(clauses: seq<Clause>, lo: nat, k: nat) returns (first: nat)
    requires lo <= k < |clauses| && Resolved(clauses[k])
    ensures first <= k && FirstOfKey(clauses, lo, first) && clauses[first].time.key == clauses[k].time.key
    decreases k
  {
    if FirstOfKey(clauses, lo, k) {
      first := k;
    } else {
      var j :| lo <= j < k && Resolved(clauses[j]) && clauses[j].time.key == clauses[k].time.key;
      first := SomeIsFirst(clauses, lo, j);
    }
  }

  /** Two resolved clauses of the stretch have the same key and different times. */
  predicate Conflict(clauses: seq<Clause>, lo: nat, hi: nat, j: nat, k: nat) {
    && lo <= j < k < hi <= |clauses| && Resolved(clauses[j]) && Resolved(clauses[k])
    && clauses[j].time.key == clauses[k].time.key && clauses[j].time != clauses[k].time
  }

  predicate Lost(clauses: seq<Clause>, lo: nat, hi: nat, k: nat) {
    lo <= k < hi <= |clauses| && Resolved(clauses[k]) && clauses[k].time !in Collected(clauses, lo, hi)
  }

  lemma OneOfKey(group: seq<Time>, a: Time, b: Time)
    requires DistinctKeys(group) && a in group && b in group && a.key == b.key
    ensures a == b
  {
  }

  /** A resolved time of a stretch is lost, if and only if two clauses have one key with different times. */
  lemma TimesLostIff(clauses: seq<Clause>, lo: nat, hi: nat)
    requires hi <= |clauses|
    ensures (exists k: nat :: Lost(clauses, lo, hi, k)) <==> exists j: nat, k: nat :: Conflict(clauses, lo, hi, j, k)
  {
    if k: nat :| Lost(clauses, lo, hi, k) {
      var first := SomeIsFirst(clauses, lo, k);
      FirstIsCollected(clauses, lo, hi, first);
      assert Conflict(clauses, lo, hi, first, k);
    }
    if j: nat, k: nat :| Conflict(clauses, lo, hi, j, k) {
      if !Lost(clauses, lo, hi, j) && !Lost(clauses, lo, hi, k) {
        CollectedIsDeduplicated(clauses, lo, hi);
        OneOfKey(Collected(clauses, lo, hi), clauses[j].time, clauses[k].time);
        assert false;
      }
    }
  }

  /** The time is one of clause `k`'s own: that of a time clause, or one that a main clause brings with it. */
  predicate OwnTime(clauses: seq<Clause>, k: nat, t: Time) {
    && k < |clauses| && Has(clauses[k].time)
    && (t == clauses[k].time || (clauses[k].role.Main? && t in clauses[k].ranges))
  }

  /** The time is that of a clause strictly between `lo` and `hi`. */
  predicate ComesFrom(clauses: seq<Clause>, lo: nat, hi: nat, t: Time) {
    exists k :: lo < k < hi && OwnTime(clauses, k, t)
  }

  lemma StandsComesFrom(clauses: seq<Clause>, lo: nat, hi: nat, p: nat, t: Time)
    requires Stands(clauses, lo, hi, t) && p < lo
    ensures ComesFrom(clauses, p, hi, t)
  {
    var k :| lo <= k < hi <= |clauses| && Resolved(clauses[k]) && clauses[k].time == t;
    assert OwnTime(clauses, k, t);
  }

  /** A time of a main clause's group is its own unless it inherited the group or extended it. */
  lemma EffectiveSource(clauses: seq<Clause>, m: nat, j: nat)
    requires m < |clauses| && clauses[m].role.Main? && j < |Effective(clauses, m)|
    ensures var t, before := Effective(clauses, m)[j], Incoming(clauses, m);
            OwnTime(clauses, m, t) || (!Replaces(clauses, m) && j < |before| && t == before[j])
  {
  }

  lemma {:induction false} NoneCollected(clauses: seq<Clause>, lo: nat, hi: nat)
    requires hi <= |clauses| && forall k :: lo <= k < hi ==> !Resolved(clauses[k])
    ensures Collected(clauses, lo, hi) == []
    decreases hi
  {
    if lo >= hi {
    } else {
      NoneCollected(clauses, lo, hi - 1);
    }
  }

  /**
   After a time clause nothing is inherited from before the previous main: "T1, main, T2,
   main" gives the second main only T2.
   */
  lemma {:induction false} NewGroup(clauses: seq<Clause>, p: nat, t: nat, i: nat)
    requires p < t < i <= |clauses| && clauses[p].role.Main? && clauses[t].role.TimeLimit?
    ensures forall j :: 0 <= j < |Incoming(clauses, i)| ==> ComesFrom(clauses, p, i, Incoming(clauses, i)[j])
    decreases i
  {
    var m, incoming := PreviousMain(clauses, i).value, Incoming(clauses, i);
    assert p <= m;
    if AnyTime(clauses, m + 1, i) {
      CollectedIsDeduplicated(clauses, m + 1, i);
      forall j | 0 <= j < |incoming|
        ensures ComesFrom(clauses, p, i, incoming[j])
      {
        StandsComesFrom(clauses, m + 1, i, p, incoming[j]);
      }
    } else {
      assert t < m;
      NewGroup(clauses, p, t, m);
      var before := Incoming(clauses, m);
      forall j | 0 <= j < |incoming|
        ensures ComesFrom(clauses, p, i, incoming[j])
      {
        EffectiveSource(clauses, m, j);
        if !OwnTime(clauses, m, incoming[j]) {
          assert ComesFrom(clauses, p, m, before[j]);
        }
      }
    }
  }

  /** Time clauses that could not be resolved block inheritance: nothing stands in their place. */
  lemma UnresolvedBlocks(clauses: seq<Clause>, i: nat)
    requires i < |clauses| && clauses[i].role.Main? && !Has(clauses[i].time)
    requires var lo := After(PreviousMain(clauses, i));
             AnyTime(clauses, lo, i) && forall k :: lo <= k < i ==> !Resolved(clauses[k])
    ensures !InheritsTimes(clauses, i)
  {
    NoneCollected(clauses, After(PreviousMain(clauses, i)), i);
  }

  // ----- Labels -----

  /** The clauses whose times make up the group before `i`; one whose key the group already held adds nothing. */
  function Suppliers(clauses: seq<Clause>, i: nat): set<nat>
    requires i <= |clauses|
    decreases i, 0
  {
    var p := PreviousMain(clauses, i);
    if p.None? || AnyTime(clauses, After(p), i)
    then set k: nat | After(p) <= k < i && FirstOfKey(clauses, After(p), k)
    else SuppliersAfter(clauses, p.value)
  }

  function SuppliersAfter(clauses: seq<Clause>, i: nat): set<nat>
    requires i < |clauses|
    decreases i, 1
  {
    if Replaces(clauses, i) then {i}
    else if Has(clauses[i].time) then Suppliers(clauses, i) + {i}
    else Suppliers(clauses, i)
  }

  predicate SuppliedBy(clauses: seq<Clause>, suppliers: set<nat>, t: Time) {
    exists k :: k in suppliers && OwnTime(clauses, k, t)
  }

  /** Every supplier stands before. */
  lemma {:induction false} SuppliersAreEarlier(clauses: seq<Clause>, i: nat)
    requires i <= |clauses|
    ensures forall k :: k in Suppliers(clauses, i) ==> k < i
    decreases i
  {
    var p := PreviousMain(clauses, i);
    if p.None? || AnyTime(clauses, After(p), i) {
    } else {
      SuppliersAreEarlier(clauses, p.value);
      assert Suppliers(clauses, i) == SuppliersAfter(clauses, p.value);
    }
  }

  /** Each time of a collected group is that of the first clause of its key. */
  lemma FromFirst(clauses: seq<Clause>, lo: nat, hi: nat, j: nat) returns (k: nat)
    requires hi <= |clauses| && j < |Collected(clauses, lo, hi)|
    ensures k < hi && FirstOfKey(clauses, lo, k) && clauses[k].time == Collected(clauses, lo, hi)[j]
  {
    var group := Collected(clauses, lo, hi);
    CollectedIsDeduplicated(clauses, lo, hi);
    assert Stands(clauses, lo, hi, group[j]);
    var n :| lo <= n < hi && Resolved(clauses[n]) && clauses[n].time == group[j];
    k := SomeIsFirst(clauses, lo, n);
    FirstIsCollected(clauses, lo, hi, k);
    var i :| 0 <= i < |group| && group[i] == clauses[k].time;
  }

  /** Every time of a group is one of a supplier's. */
  lemma {:induction false} GroupIsSupplied(clauses: seq<Clause>, i: nat)
    requires i <= |clauses|
    ensures forall j :: 0 <= j < |Incoming(clauses, i)| ==>
              SuppliedBy(clauses, Suppliers(clauses, i), Incoming(clauses, i)[j])
    decreases i
  {
    var p, incoming := PreviousMain(clauses, i), Incoming(clauses, i);
    if p.None? || AnyTime(clauses, After(p), i) {
      CollectedIsDeduplicated(clauses, After(p), i);
      forall j | 0 <= j < |incoming|
        ensures SuppliedBy(clauses, Suppliers(clauses, i), incoming[j])
      {
        var k := FromFirst(clauses, After(p), i, j);
        assert k in Suppliers(clauses, i) && OwnTime(clauses, k, incoming[j]);
      }
    } else {
      var m := p.value;
      GroupIsSupplied(clauses, m);
      var before := Incoming(clauses, m);
      forall j | 0 <= j < |incoming|
        ensures SuppliedBy(clauses, Suppliers(clauses, i), incoming[j])
      {
        EffectiveSource(clauses, m, j);
        if Replaces(clauses, m) || j >= |before| {
          assert m in Suppliers(clauses, i) && OwnTime(clauses, m, incoming[j]);
        } else {
          assert incoming[j] == before[j];
          assert SuppliedBy(clauses, Suppliers(clauses, m), before[j]);
          var k :| k in Suppliers(clauses, m) && OwnTime(clauses, k, before[j]);
          assert k in Suppliers(clauses, i) && OwnTime(clauses, k, incoming[j]);
        }
      }
    }
  }

  /** A time of the group is the clause's own. */
  predicate Supplies(clauses: seq<Clause>, k: nat, group: seq<Time>) {
    exists j :: 0 <= j < |group| && OwnTime(clauses, k, group[j])
  }

  /** A main clause with a time of its own leaves a group that ends with one. */
  lemma {:induction false} LastIsOwn(clauses: seq<Clause>, m: nat)
    requires m < |clauses| && clauses[m].role.Main? && Has(clauses[m].time)
    ensures var group := Effective(clauses, m); group != [] && OwnTime(clauses, m, group[|group| - 1])
  {
  }

  lemma KeptSupplies(clauses: seq<Clause>, m: nat, k: nat)
    requires m < |clauses| && !Replaces(clauses, m) && Supplies(clauses, k, Incoming(clauses, m))
    ensures Supplies(clauses, k, Effective(clauses, m))
  {
    var before := Incoming(clauses, m);
    var j :| 0 <= j < |before| && OwnTime(clauses, k, before[j]);
    assert Effective(clauses, m)[j] == before[j];
  }

  /** Every supplier has a time of its own in the group. */
  lemma {:induction false} SuppliersSupply(clauses: seq<Clause>, i: nat, k: nat)
    requires i <= |clauses| && k in Suppliers(clauses, i)
    ensures Supplies(clauses, k, Incoming(clauses, i))
    decreases i
  {
    var p, incoming := PreviousMain(clauses, i), Incoming(clauses, i);
    if p.None? || AnyTime(clauses, After(p), i) {
      FirstIsCollected(clauses, After(p), i, k);
      var j :| 0 <= j < |incoming| && incoming[j] == clauses[k].time;
      assert OwnTime(clauses, k, incoming[j]);
    } else {
      assert k in SuppliersAfter(clauses, p.value);
      SuppliersAreEarlier(clauses, p.value);
      if k == p.value {
        LastIsOwn(clauses, k);
        assert OwnTime(clauses, k, incoming[|incoming| - 1]);
      } else {
        SuppliersSupply(clauses, p.value, k);
        KeptSupplies(clauses, p.value, k);
      }
    }
  }

  /**
   The clause named as the source of inherited times is the nearest resolved time clause, but it supplied
   one of them exactly if no main clause in between replaced the group by its own time and no time clause
   of its stretch had its key before.
   */
  lemma {:induction false} LabelSuppliesIff(clauses: seq<Clause>, i: nat, s: nat)
    requires i <= |clauses| && Incoming(clauses, i) != [] && NearestTime(clauses, i) == Some(s)
    ensures s in Suppliers(clauses, i) <==>
            && (forall m :: s < m < i && clauses[m].role.Main? ==> !Replaces(clauses, m))
            && FirstOfKey(clauses, After(PreviousMain(clauses, s)), s)
    decreases i
  {
    var p := PreviousMain(clauses, i);
    if p.None? || p.value < s {
      assert AnyTime(clauses, After(p), i);
      assert PreviousMain(clauses, s) == p;
    } else {
      var m := p.value;
      assert forall k :: m < k < i ==> !Resolved(clauses[k]);
      if AnyTime(clauses, m + 1, i) {
        NoneCollected(clauses, m + 1, i);
        assert false;
      } else if Replaces(clauses, m) {
        assert s !in Suppliers(clauses, i);
      } else {
        NearestShrinks(clauses, m, i);
        LabelSuppliesIff(clauses, m, s);
        assert forall n :: s < n < i && clauses[n].role.Main? ==> n == m || n < m;
      }
    }
  }

  lemma {:induction false} NearestShrinks(clauses: seq<Clause>, m: nat, i: nat)
    requires m <= i <= |clauses| && forall k :: m <= k < i ==> !Resolved(clauses[k])
    ensures NearestTime(clauses, i) == NearestTime(clauses, m)
    decreases i
  {
    if m >= i {
    } else {
      NearestShrinks(clauses, m, i - 1);
    }
  }

  /** A label that names a clause which supplied nothing: "T1, main with T2, main" labels the second main with T1. */
  lemma MislabelledRun(first: Time, second: Time, words: Words)
    requires Has(first) && second.dated && !second.latest
    ensures var none := Time(false, false, "", "");
            var clauses := [Clause(TimeLimit, first, [], map[], words), Clause(Main, second, [], map[], words),
                            Clause(Main, none, [], map[], words)];
            && Incoming(clauses, 2) == [second] && InheritsTimes(clauses, 2)
            && NearestTime(clauses, 2) == Some(0) && Suppliers(clauses, 2) == {1}
  {
    var none := Time(false, false, "", "");
    var clauses := [Clause(TimeLimit, first, [], map[], words), Clause(Main, second, [], map[], words),
                    Clause(Main, none, [], map[], words)];
    assert PreviousMain(clauses, 2) == Some(1);
    assert !AnyTime(clauses, 2, 2);
    assert Replaces(clauses, 1);
    assert NearestTime(clauses, 1) == Some(0);
    assert !Resolved(clauses[1]);
  }

  /**
   Another one: of two time clauses with one key only the first adds its time, but the label names the
   second, which has a different one.
   */
  lemma SameKeyRun(first: Time, second: Time, words: Words)
    requires Has(first) && Has(second) && first.key == second.key && first != second
    ensures var none := Time(false, false, "", "");
            var clauses := [Clause(TimeLimit, first, [], map[], words), Clause(TimeLimit, second, [], map[], words),
                            Clause(Main, none, [], map[], words)];
            && Incoming(clauses, 2) == [first] && InheritsTimes(clauses, 2)
            && NearestTime(clauses, 2) == Some(1) && !Supplies(clauses, 1, Incoming(clauses, 2))
  {
    var none := Time(false, false, "", "");
    var clauses := [Clause(TimeLimit, first, [], map[], words), Clause(TimeLimit, second, [], map[], words),
                    Clause(Main, none, [], map[], words)];
    assert PreviousMain(clauses, 2) == PreviousMain(clauses, 1) == None;
    assert Collected(clauses, 0, 1) == [first];
    assert Collected(clauses, 0, 1)[0].key == second.key;
  }

  // ----- Results -----

  /** A result with the clause's own times, whatever came before. */
  predicate KeepsOwn(c: Clause, sub: Sub) {
    && sub.time == c.time && sub.inheritedTimes == None && sub.inheritFrom == Nowhere
    && sub.ranges == if c.role == Main && (c.time.dated || c.time.latest) && |c.ranges| == 0 then [c.time] else c.ranges
  }

  /**
   What a clause gets: a main clause without a time takes the group before it, if there is one, and the group's
   first time; one that asks for the latest before an anchor puts itself behind the group; all others, and all
   clauses that are not main, keep what they have.
   */
  lemma ResultTimes(clauses: seq<Clause>, i: nat, sub: Sub)
    requires i < |clauses| && TimesRight(clauses, i, sub) && SourceRight(clauses, i, sub)
    ensures var c, group := clauses[i], Incoming(clauses, i);
            && sub.role == c.role
            && if c.role != Main || |group| == 0 then KeepsOwn(c, sub)
               else if c.time.latest then
                 sub.ranges == group + [c.time] && sub.time == c.time && sub.inheritedTimes == Some(group)
               else if c.time.dated then KeepsOwn(c, sub)
               else sub.ranges == group && sub.time == group[0] && sub.inheritedTimes == Some(group)
  {
  }

  /** A time clause whose time was understood. */
  predicate DatesTime(c: Clause) {
    c.role == TimeLimit && (c.time.dated || c.time.latest)
  }

  /** An inheriting clause is labelled with the number, from one, of the last resolved time clause before it, if any. */
  lemma ResultLabel(clauses: seq<Clause>, i: nat, sub: Sub, n: nat)
    requires i < |clauses| && TimesRight(clauses, i, sub) && SourceRight(clauses, i, sub)
    ensures sub.inheritedTimes == None ==> sub.inheritFrom == Nowhere
    ensures sub.inheritedTimes.Some? ==>
              (sub.inheritFrom == FromClause(n) <==>
                 1 <= n <= i && DatesTime(clauses[n - 1]) && forall j :: n <= j < i ==> !DatesTime(clauses[j]))
    ensures sub.inheritedTimes.Some? && (forall j :: 0 <= j < i ==> !DatesTime(clauses[j])) ==>
              sub.inheritFrom == TimeGroup
  {
    assert forall j :: 0 <= j < i ==> (Resolved(clauses[j]) <==> DatesTime(clauses[j]));
  }

  // ----- Attributes -----

  /** The main clause names the attribute. */
  predicate Names(c: Clause, a: Attribute) {
    c.role == Main && a in c.attributes && c.attributes[a] != ""
  }

  /** The map gives the attribute the value, if it is not empty, and nothing if it is. */
  predicate Gives(m: map<Attribute, string>, a: Attribute, value: string) {
    if a in m then m[a] == value else value == ""
  }

  /** A clause that is not main keeps its own attributes and inherits none. */
  lemma OwnAttributes(clauses: seq<Clause>, i: nat, a: Attribute, sub: Sub)
    requires i < |clauses| && clauses[i].role != Main && AttributesRight(clauses, i, sub)
    ensures Gives(sub.inheritedAttributes, a, "")
    ensures Gives(sub.attributes, a, if a in clauses[i].attributes then clauses[i].attributes[a] else "")
  {
    var own, inherited := Value(sub.attributes, a), Value(sub.inheritedAttributes, a);
  }

  /**
   A main clause's attribute is that of the nearest main clause at or before it that names
   one, and empty if none does.
   */
  lemma {:induction false} NearestNames(clauses: seq<Clause>, i: nat, a: Attribute, sub: Sub)
    requires i < |clauses| && clauses[i].role.Main? && AttributesRight(clauses, i, sub)
    ensures (forall j :: 0 <= j <= i ==> !Names(clauses[j], a)) ==>
              Gives(sub.attributes, a, "") && Gives(sub.inheritedAttributes, a, "")
    ensures forall j :: 0 <= j <= i && Names(clauses[j], a) && (forall k :: j < k <= i ==> !Names(clauses[k], a)) ==>
              && Gives(sub.attributes, a, clauses[j].attributes[a])
              && Gives(sub.inheritedAttributes, a, if j < i then clauses[j].attributes[a] else "")
  {
    NamedIsNearest(clauses, i, a);
    var own, inherited := Value(sub.attributes, a), Value(sub.inheritedAttributes, a);
  }

  lemma {:induction false} NamedIsNearest(clauses: seq<Clause>, i: nat, a: Attribute)
    requires i <= |clauses|
    ensures Named(clauses, i, a) == "" <==> forall j :: 0 <= j < i ==> !Names(clauses[j], a)
    ensures forall j :: 0 <= j < i && Names(clauses[j], a) && (forall k :: j < k < i ==> !Names(clauses[k], a)) ==>
              Named(clauses, i, a) == Value(clauses[j].attributes, a)
  {
    if i == 0 {
    } else {
      NamedIsNearest(clauses, i - 1, a);
      forall j | 0 <= j < i && Names(clauses[j], a) && forall k :: j < k < i ==> !Names(clauses[k], a)
        ensures Named(clauses, i, a) == Value(clauses[j].attributes, a)
      {
        if j < i - 1 {
          assert !Names(clauses[i - 1], a);
        }
      }
    }
  }
}

/** Which earlier clauses a clause waits for, counted from one. */
module Dependencies {
  import opened Wrappers
  import opened Inheritance

  predicate Chained(clauses: seq<Clause>) {
    || (exists i :: 0 <= i < |clauses| && clauses[i].words.refersToDate)
    || (Analytic(clauses))
  }

  predicate Analytic(clauses: seq<Clause>) {
    && (exists i :: 0 <= i < |clauses| && clauses[i].words.analyses)
    && (exists i :: 0 <= i < |clauses| && clauses[i].words.fetches)
  }

  predicate Supports(r: Role) {
    r.Context? || r.TimeLimit? || r.Constraint?
  }

  /** The numbers of the supporting clauses before `i`. */
  function SupportsBefore(clauses: seq<Clause>, i: nat): seq<nat>
    requires i <= |clauses|
  {
    if i == 0 then []
    else SupportsBefore(clauses, i - 1) + if Supports(clauses[i - 1].role) then [i] else []
  }

  /** What clause `i` waits for in a chain of steps. */
  function WaitsFor(clauses: seq<Clause>, analytic: bool, i: nat): seq<nat>
    requires i < |clauses|
  {
    var c, p := clauses[i], PreviousMain(clauses, i);
    if c.role.Output? then if p.Some? then [p.value + 1] else []
    else if !c.role.Main? then []
    else if p.Some? && ((analytic && c.words.calculates) || c.words.refersBack) then [p.value + 1]
    else SupportsBefore(clauses, i)
  }

  method Any(clauses: seq<Clause>, wanted: Words -> bool) returns (found: bool)
    ensures found <==> exists i :: 0 <= i < |clauses| && wanted(clauses[i].words)
  {
    for i := 0 to |clauses|
      invariant forall j :: 0 <= j < i ==> !wanted(clauses[j].words)
    {
      if wanted(clauses[i].words) {
        return true;
      }
    }
    found := false;
  }

  method Annotate(clauses: seq<Clause>) returns (dependsOn: seq<seq<nat>>)
    ensures |dependsOn| == |clauses|
    ensures forall i :: 0 <= i < |clauses| ==>
              dependsOn[i] == if Chained(clauses) then WaitsFor(clauses, Analytic(clauses), i) else []
  {
    var reference := Any(clauses, (w: Words) => w.refersToDate);
    var analyses := Any(clauses, (w: Words) => w.analyses);
    var fetches := Any(clauses, (w: Words) => w.fetches);
    var analytic := analyses && fetches;
    if !reference && !analytic {
      return seq(|clauses|, i => []);
    }
    dependsOn := Link(clauses, analytic);
  }

  /** The number of a clause, counted from one. */
  function NumberOf(p: Option<nat>): Option<nat> {
    if p.Some? then Some(p.value + 1) else None
  }

  method Link(clauses: seq<Clause>, analytic: bool) returns (dependsOn: seq<seq<nat>>)
    ensures |dependsOn| == |clauses|
    ensures forall i :: 0 <= i < |clauses| ==> dependsOn[i] == WaitsFor(clauses, analytic, i)
  {
    dependsOn := [];
    var supports: seq<nat> := [];
    var previousMain: Option<nat> := None;
    for i := 0 to |clauses|
      invariant |dependsOn| == i
      invariant supports == SupportsBefore(clauses, i)
      invariant previousMain == NumberOf(PreviousMain(clauses, i))
      invariant forall j :: 0 <= j < i ==> dependsOn[j] == WaitsFor(clauses, analytic, j)
    {
      var c := clauses[i];
      var own: seq<nat> := [];
      if Supports(c.role) {
        supports := supports + [i + 1];
      } else if c.role.Output? {
        if previousMain.Some? {
          own := [previousMain.value];
        }
      } else {
        if previousMain.Some? && ((analytic && c.words.calculates) || c.words.refersBack) {
          own := [previousMain.value];
        } else if supports != [] {
          own := supports;
        }
        previousMain := Some(i + 1);
      }
      dependsOn := dependsOn + [own];
    }
  }

  /** The supports before `i` are exactly the supporting clauses before it. */
  lemma {:induction false} SupportsAreEarlier(clauses: seq<Clause>, i: nat, n: nat)
    requires i <= |clauses|
    ensures n in SupportsBefore(clauses, i) <==> 1 <= n <= i && Supports(clauses[n - 1].role)
  {
    if i == 0 {
    } else {
      SupportsAreEarlier(clauses, i - 1, n);
      var before := SupportsBefore(clauses, i - 1);
      if Supports(clauses[i - 1].role) {
        assert n in before + [i] <==> n in before || n == i;
      } else {
        assert before + [] == before;
      }
    }
  }

  /** A clause waits only for clauses before it, which are supports or main. */
  lemma WaitsForEarlier(clauses: seq<Clause>, analytic: bool, i: nat, n: nat)
    requires i < |clauses| && n in WaitsFor(clauses, analytic, i)
    ensures 1 <= n <= i && (clauses[n - 1].role.Main? || Supports(clauses[n - 1].role))
  {
    SupportsAreEarlier(clauses, i, n);
  }

  predicate Waits(clauses: seq<Clause>, analytic: bool, number: nat, other: nat) {
    1 <= number <= |clauses| && other in WaitsFor(clauses, analytic, number - 1)
  }

  /** A walk along dependencies. */
  predicate Walk(clauses: seq<Clause>, analytic: bool, path: seq<nat>) {
    forall k :: 0 < k < |path| ==> Waits(clauses, analytic, path[k - 1], path[k])
  }

  /** No clause waits for itself, however indirectly: a walk only goes back. */
  lemma {:induction false} NoCycles(clauses: seq<Clause>, analytic: bool, path: seq<nat>)
    requires Walk(clauses, analytic, path) && |path| > 1
    ensures path[|path| - 1] < path[0]
  {
    var last := |path| - 1;
    assert Waits(clauses, analytic, path[last - 1], path[last]);
    WaitsForEarlier(clauses, analytic, path[last - 1] - 1, path[last]);
    if last <= 1 {
    } else {
      var init := path[..last];
      assert forall k :: 0 < k < |init| ==> Waits(clauses, analytic, init[k - 1], init[k]);
      NoCycles(clauses, analytic, init);
    }
  }

  // ----- Which clauses -----

  /** The nearest main clause before `i` has the number. */
  predicate NearestMain(clauses: seq<Clause>, i: nat, number: nat)
    requires i <= |clauses|
  {
    && 1 <= number <= i && clauses[number - 1].role == Main
    && forall j :: number <= j < i ==> clauses[j].role != Main
  }

  /** There are steps: a clause refers to a date, or one analyses and one fetches. */
  lemma ChainedIff(clauses: seq<Clause>)
    ensures Chained(clauses) <==>
            || (exists c :: c in clauses && c.words.refersToDate)
            || ((exists c :: c in clauses && c.words.analyses) && (exists c :: c in clauses && c.words.fetches))
    ensures Analytic(clauses) <==>
            (exists c :: c in clauses && c.words.analyses) && (exists c :: c in clauses && c.words.fetches)
  {
    forall i | 0 <= i < |clauses|
      ensures clauses[i] in clauses
    {
    }
    forall c | c in clauses
      ensures exists i :: 0 <= i < |clauses| && clauses[i] == c
    {
    }
  }

  /** The numbers rise, up to the bound. */
  predicate Rising(numbers: seq<nat>, bound: nat) {
    && (forall a, b :: 0 <= a < b < |numbers| ==> numbers[a] < numbers[b])
    && (forall a :: 0 <= a < |numbers| ==> numbers[a] <= bound)
  }

  lemma RisingMore(numbers: seq<nat>, bound: nat, next: nat)
    requires Rising(numbers, bound) && bound < next
    ensures Rising(numbers + [next], next)
  {
  }

  lemma {:induction false} SupportsRise(clauses: seq<Clause>, i: nat)
    requires i <= |clauses|
    ensures Rising(SupportsBefore(clauses, i), i)
  {
    if i == 0 {
    } else {
      SupportsRise(clauses, i - 1);
      RisingMore(SupportsBefore(clauses, i - 1), i - 1, i);
    }
  }

  /**
   The clause goes on from the main clause before it: an output, or a main clause that refers
   back or, in an analysis, calculates.
   */
  predicate GoesOn(c: Clause, analytic: bool) {
    c.role == Output || (c.role == Main && (c.words.refersBack || (analytic && c.words.calculates)))
  }

  lemma MainBefore(clauses: seq<Clause>, i: nat)
    requires i <= |clauses|
    ensures var p := PreviousMain(clauses, i);
            if p.Some? then NearestMain(clauses, i, p.value + 1)
            else forall j :: 0 <= j < i ==> clauses[j].role != Main
  {
  }

  /** A clause that goes on waits for the nearest main clause before it, and an output without one for nothing. */
  lemma WaitsForMain(clauses: seq<Clause>, analytic: bool, i: nat)
    requires i < |clauses| && GoesOn(clauses[i], analytic)
    ensures var waits := WaitsFor(clauses, analytic, i);
            if exists j :: 0 <= j < i && clauses[j].role == Main then |waits| == 1 && NearestMain(clauses, i, waits[0])
            else clauses[i].role == Output ==> waits == []
  {
    MainBefore(clauses, i);
  }

  /** Any other main clause waits for all the context, time and constraint clauses before it, in order. */
  lemma WaitsForSupports(clauses: seq<Clause>, analytic: bool, i: nat, n: nat)
    requires i < |clauses| && clauses[i].role == Main
    requires GoesOn(clauses[i], analytic) ==> forall j :: 0 <= j < i ==> clauses[j].role != Main
    ensures var waits := WaitsFor(clauses, analytic, i);
            && (n in waits <==> 1 <= n <= i && clauses[n - 1].role in {Context, TimeLimit, Constraint})
            && Rising(waits, i)
  {
    MainBefore(clauses, i);
    SupportsRise(clauses, i);
    SupportsAreEarlier(clauses, i, n);
  }

  /** The rest wait for nothing. */
  lemma OthersWaitForNothing(clauses: seq<Clause>, analytic: bool, i: nat)
    requires i < |clauses| && clauses[i].role != Main && clauses[i].role != Output
    ensures WaitsFor(clauses, analytic, i) == []
  {
  }
}
