/** Greedy packing of paragraphs into chunks; a paragraph longer than a chunk is cut. */
module Packing {
  import opened Wrappers

  /** Finished chunks and the one being filled. */
  datatype Pack = Pack(chunks: seq<string>, current: string)

  function Flush(s: Pack): seq<string> {
    if s.current == "" then s.chunks else s.chunks + [s.current]
  }

  /** The consecutive pieces of `maxLen` characters; the last may be shorter. */
  function Cut(p: string, maxLen: nat): seq<string>
    requires maxLen > 0
    decreases |p|
  {
    if p == "" then [] else if |p| <= maxLen then [p] else [p[..maxLen]] + Cut(p[maxLen..], maxLen)
  }

  function Add(s: Pack, p: string, maxLen: nat): Pack
    requires maxLen > 0
  {
    if |p| > maxLen then Pack(Flush(s) + Cut(p, maxLen), "")
    else if s.current != "" && |s.current| + |p| + 1 > maxLen then Pack(s.chunks + [s.current], p)
    else s.(current := if s.current == "" then p else s.current + "\n" + p)
  }

  function AddAll(paragraphs: seq<string>, maxLen: nat): Pack
    requires maxLen > 0
  {
    if paragraphs == [] then Pack([], "")
    else Add(AddAll(paragraphs[..|paragraphs| - 1], maxLen), paragraphs[|paragraphs| - 1], maxLen)
  }

  function Chunks(paragraphs: seq<string>, maxLen: nat): seq<string>
    requires maxLen > 0
  {
    Flush(AddAll(paragraphs, maxLen))
  }

  /**
   The result for any maximum: a negative one drops every paragraph, and zero raises at the
   first one that has to be cut.
   */
  function Result(paragraphs: seq<string>, maxLen: int): Option<seq<string>> {
    if maxLen > 0 then Some(Chunks(paragraphs, maxLen))
    else if maxLen == 0 && (exists i :: 0 <= i < |paragraphs| && paragraphs[i] != "") then None
    else Some([])
  }

  /**
   The pieces of a paragraph, cut at every `maxLen` characters; a step of zero raises, a
   negative one gives no pieces.
   */
  method CutHard(chunks: seq<string>, p: string, maxLen: int) returns (more: Option<seq<string>>)
    ensures more == if maxLen > 0 then Some(chunks + Cut(p, maxLen)) else if maxLen == 0 then None else Some(chunks)
  {
    if maxLen == 0 {
      return None;
    }
    if maxLen < 0 {
      return Some(chunks);
    }
    var all := chunks;
    var i := 0;
    while i < |p|
      invariant 0 <= i
      invariant all + (if i < |p| then Cut(p[i..], maxLen) else []) == chunks + Cut(p, maxLen)
      decreases |p| - i
    {
      var end := if i + maxLen <= |p| then i + maxLen else |p|;
      ghost var rest := if end < |p| then Cut(p[end..], maxLen) else [];
      assert Cut(p[i..], maxLen) == [p[i..end]] + rest by {
        if end < |p| {
          assert p[i..][..maxLen] == p[i..end];
          assert p[i..][maxLen..] == p[end..];
        } else {
          assert p[i..] == p[i..end];
        }
      }
      assert all + ([p[i..end]] + rest) == all + [p[i..end]] + rest;
      all := all + [p[i..end]];
      i := i + maxLen;
    }
    assert all + [] == all;
    more := Some(all);
  }

  method ChunkText(paragraphs: seq<string>, maxLen: int) returns (result: Option<seq<string>>)
    ensures result == Result(paragraphs, maxLen)
  {
    var chunks: seq<string> := [];
    var current := "";
    for i := 0 to |paragraphs|
      invariant maxLen > 0 ==> Pack(chunks, current) == AddAll(paragraphs[..i], maxLen)
      invariant maxLen <= 0 ==> chunks == [] && current == ""
      invariant maxLen == 0 ==> forall j :: 0 <= j < i ==> paragraphs[j] == ""
    {
      var p := paragraphs[i];
      assert paragraphs[..i + 1][..i] == paragraphs[..i];
      if |p| > maxLen {
        if current != "" {
          chunks := chunks + [current];
          current := "";
        }
        var more := CutHard(chunks, p, maxLen);
        if more.None? {
          return None;
        }
        chunks := more.value;
      } else if current != "" && |current| + |p| + 1 > maxLen {
        chunks := chunks + [current];
        current := p;
      } else {
        current := if current == "" then p else current + "\n" + p;
      }
    }
    assert paragraphs[..|paragraphs|] == paragraphs;
    if current != "" {
      chunks := chunks + [current];
    }
    result := Some(chunks);
  }

  // ----- Lengths -----

  predicate Within(chunks: seq<string>, maxLen: nat) {
    forall i :: 0 <= i < |chunks| ==> 0 < |chunks[i]| <= maxLen
  }

  lemma {:induction false} CutWithin(p: string, maxLen: nat)
    requires maxLen > 0
    ensures Within(Cut(p, maxLen), maxLen)
    decreases |p|
  {
    if |p| <= maxLen {
    } else {
      CutWithin(p[maxLen..], maxLen);
    }
  }

  lemma {:induction false} PackWithin(paragraphs: seq<string>, maxLen: nat)
    requires maxLen > 0
    ensures Within(AddAll(paragraphs, maxLen).chunks, maxLen) && |AddAll(paragraphs, maxLen).current| <= maxLen
  {
    if paragraphs == [] {
    } else {
      PackWithin(paragraphs[..|paragraphs| - 1], maxLen);
      CutWithin(paragraphs[|paragraphs| - 1], maxLen);
    }
  }

  /** No chunk is empty or longer than `maxLen`. */
  lemma NoChunkTooLong(paragraphs: seq<string>, maxLen: nat)
    requires maxLen > 0
    ensures Within(Chunks(paragraphs, maxLen), maxLen)
  {
    PackWithin(paragraphs, maxLen);
  }

  // ----- Conservation -----

  function Concat(parts: seq<string>): string {
    if parts == [] then "" else Concat(parts[..|parts| - 1]) + parts[|parts| - 1]
  }

  lemma ConcatOne(a: seq<string>, p: string)
    ensures Concat(a + [p]) == Concat(a) + p
  {
    assert (a + [p])[..|a|] == a;
  }

  lemma Associates(a: seq<string>, b: seq<string>, p: string)
    ensures a + b + [p] == a + (b + [p])
  {
  }

  lemma {:induction false} ConcatAppend(a: seq<string>, b: seq<string>)
    ensures Concat(a + b) == Concat(a) + Concat(b)
  {
    if b == [] {
      assert a + b == a;
    } else {
      var init, p := b[..|b| - 1], b[|b| - 1];
      ConcatAppend(a, init);
      ConcatOne(a + init, p);
      Associates(a, init, p);
      assert init + [p] == b;
    }
  }

  function WithoutBreaks(s: string): string {
    if s == "" then "" else WithoutBreaks(s[..|s| - 1]) + if s[|s| - 1] == '\n' then "" else [s[|s| - 1]]
  }

  /** Only line breaks are dropped. */
  lemma {:induction false} BreaksDropped(s: string)
    ensures '\n' !in WithoutBreaks(s)
    ensures forall c :: c != '\n' ==> (c in s <==> c in WithoutBreaks(s))
    ensures '\n' !in s ==> WithoutBreaks(s) == s
  {
    if s == "" {
    } else {
      var init := s[..|s| - 1];
      BreaksDropped(init);
      assert s == init + [s[|s| - 1]];
    }
  }

  lemma {:induction false} WithoutBreaksAppend(a: string, b: string)
    ensures WithoutBreaks(a + b) == WithoutBreaks(a) + WithoutBreaks(b)
  {
    if b == "" {
      assert a + b == a;
    } else {
      assert (a + b)[..|a + b| - 1] == a + b[..|b| - 1];
      WithoutBreaksAppend(a, b[..|b| - 1]);
    }
  }

  lemma {:induction false} CutConcat(p: string, maxLen: nat)
    requires maxLen > 0
    ensures Concat(Cut(p, maxLen)) == p
    decreases |p|
  {
    if |p| > maxLen {
      var head, tail := p[..maxLen], p[maxLen..];
      CutConcat(tail, maxLen);
      ConcatOne([], head);
      assert [] + [head] == [head];
      ConcatAppend([head], Cut(tail, maxLen));
      assert p == head + tail;
    } else if p != "" {
      ConcatOne([], p);
      assert [] + [p] == [p];
    }
  }

  /** All characters of a packing that are no line breaks, in order. */
  function TextOf(s: Pack): string {
    WithoutBreaks(Concat(s.chunks) + s.current)
  }

  lemma CutText(s: Pack, p: string, maxLen: nat)
    requires maxLen > 0
    ensures Concat(Flush(s) + Cut(p, maxLen)) + "" == Concat(s.chunks) + s.current + p
  {
    FlushConcat(s);
    ConcatAppend(Flush(s), Cut(p, maxLen));
    CutConcat(p, maxLen);
  }

  lemma BreakText(a: string)
    ensures WithoutBreaks(a + "\n") == WithoutBreaks(a)
  {
    var b := a + "\n";
    assert b[..|b| - 1] == a && b[|b| - 1] == '\n';
  }

  lemma Regroup(a: string, b: string, c: string, d: string)
    ensures a + (b + c + d) == (a + b + c) + d
  {
  }

  lemma JoinText(before: string, current: string, p: string)
    ensures WithoutBreaks(before + (current + "\n" + p)) == WithoutBreaks(before + current + p)
  {
    Regroup(before, current, "\n", p);
    BreakText(before + current);
    WithoutBreaksAppend(before + current, p);
    WithoutBreaksAppend(before + current + "\n", p);
  }

  lemma AddText(s: Pack, p: string, maxLen: nat)
    requires maxLen > 0
    ensures TextOf(Add(s, p, maxLen)) == WithoutBreaks(Concat(s.chunks) + s.current + p)
  {
    if |p| > maxLen {
      CutText(s, p, maxLen);
    } else if s.current != "" && |s.current| + |p| + 1 > maxLen {
      ConcatOne(s.chunks, s.current);
    } else if s.current == "" {
      assert Concat(s.chunks) + p == Concat(s.chunks) + s.current + p;
    } else {
      JoinText(Concat(s.chunks), s.current, p);
    }
  }

  lemma FlushConcat(s: Pack)
    ensures Concat(Flush(s)) == Concat(s.chunks) + s.current
  {
    ConcatOne(s.chunks, s.current);
  }

  lemma {:induction false} AddAllText(paragraphs: seq<string>, maxLen: nat)
    requires maxLen > 0
    ensures TextOf(AddAll(paragraphs, maxLen)) == WithoutBreaks(Concat(paragraphs))
  {
    if paragraphs == [] {
    } else {
      var init, p := paragraphs[..|paragraphs| - 1], paragraphs[|paragraphs| - 1];
      AddAllText(init, maxLen);
      var before := AddAll(init, maxLen);
      AddText(before, p, maxLen);
      WithoutBreaksAppend(Concat(before.chunks) + before.current, p);
      WithoutBreaksAppend(Concat(init), p);
    }
  }

  lemma {:induction false} NoBreaks(paragraphs: seq<string>)
    requires forall i :: 0 <= i < |paragraphs| ==> '\n' !in paragraphs[i]
    ensures WithoutBreaks(Concat(paragraphs)) == Concat(paragraphs)
  {
    if paragraphs == [] {
    } else {
      BreaksDropped(paragraphs[|paragraphs| - 1]);
      NoBreaks(paragraphs[..|paragraphs| - 1]);
      WithoutBreaksAppend(Concat(paragraphs[..|paragraphs| - 1]), paragraphs[|paragraphs| - 1]);
    }
  }

  /** But for line breaks, the chunks in order are exactly the paragraphs in order. */
  lemma {:induction false} CharactersConserved(paragraphs: seq<string>, maxLen: nat)
    requires maxLen > 0
    requires forall i :: 0 <= i < |paragraphs| ==> '\n' !in paragraphs[i]
    ensures WithoutBreaks(Concat(Chunks(paragraphs, maxLen))) == Concat(paragraphs)
  {
    AddAllText(paragraphs, maxLen);
    FlushConcat(AddAll(paragraphs, maxLen));
    NoBreaks(paragraphs);
  }

  lemma {:induction false} NothingToSpell(paragraphs: seq<string>)
    ensures Concat(paragraphs) == "" <==> forall i :: 0 <= i < |paragraphs| ==> paragraphs[i] == ""
  {
    if paragraphs == [] {
    } else {
      NothingToSpell(paragraphs[..|paragraphs| - 1]);
      assert forall i :: 0 <= i < |paragraphs| - 1 ==> paragraphs[i] == paragraphs[..|paragraphs| - 1][i];
    }
  }

  /** A maximum of zero raises at the first paragraph; a negative one gives no chunks. */
  lemma ResultDecides(paragraphs: seq<string>, maxLen: int)
    ensures var result := Result(paragraphs, maxLen);
            && (result.None? <==> maxLen == 0 && exists p :: p in paragraphs && p != "")
            && (maxLen <= 0 && result.Some? ==> result.value == [])
            && (maxLen > 0 ==> result == Some(Chunks(paragraphs, maxLen)))
  {
    assert forall i :: 0 <= i < |paragraphs| ==> paragraphs[i] in paragraphs;
  }

  /** There are chunks that spell the paragraphs exactly if the maximum is positive or there is nothing to spell. */
  lemma {:induction false} ConservedIff(paragraphs: seq<string>, maxLen: int)
    requires forall i :: 0 <= i < |paragraphs| ==> '\n' !in paragraphs[i]
    ensures var result := Result(paragraphs, maxLen);
            result.Some? && WithoutBreaks(Concat(result.value)) == Concat(paragraphs) <==>
            maxLen > 0 || Concat(paragraphs) == ""
  {
    if maxLen > 0 {
      CharactersConserved(paragraphs, maxLen);
    } else {
      NothingToSpell(paragraphs);
    }
  }

  // ----- Optimality -----

  /** The paragraphs of a chunk with a line break between each two. */
  function Join(group: seq<string>): string {
    if group == [] then ""
    else if |group| == 1 then group[0]
    else Join(group[..|group| - 1]) + "\n" + group[|group| - 1]
  }

  function Flatten(groups: seq<seq<string>>): seq<string> {
    if groups == [] then [] else Flatten(groups[..|groups| - 1]) + groups[|groups| - 1]
  }

  function JoinAll(groups: seq<seq<string>>): seq<string> {
    if groups == [] then [] else JoinAll(groups[..|groups| - 1]) + [Join(groups[|groups| - 1])]
  }

  /** A division of the paragraphs, in order, into groups that fit. */
  predicate Grouping(groups: seq<seq<string>>, paragraphs: seq<string>, maxLen: nat) {
    && Flatten(groups) == paragraphs
    && forall i :: 0 <= i < |groups| ==> groups[i] != [] && |Join(groups[i])| <= maxLen
  }

  predicate Fit(paragraphs: seq<string>, maxLen: nat) {
    forall i :: 0 <= i < |paragraphs| ==> 0 < |paragraphs[i]| <= maxLen
  }

  /** The groups of the greedy packing. */
  function Greedy(paragraphs: seq<string>, maxLen: nat): seq<seq<string>> {
    if paragraphs == [] then []
    else
      var groups := Greedy(paragraphs[..|paragraphs| - 1], maxLen);
      var p := paragraphs[|paragraphs| - 1];
      if groups != [] && |Join(groups[|groups| - 1])| + |p| + 1 <= maxLen
      then groups[|groups| - 1 := groups[|groups| - 1] + [p]]
      else groups + [[p]]
  }

  lemma JoinMore(group: seq<string>, p: string)
    ensures Join(group + [p]) == if group == [] then p else Join(group) + "\n" + p
  {
    assert (group + [p])[..|group|] == group;
  }

  lemma FlattenMore(groups: seq<seq<string>>, p: string)
    ensures Flatten(groups + [[p]]) == Flatten(groups) + [p]
    ensures groups != [] ==>
              Flatten(groups[|groups| - 1 := groups[|groups| - 1] + [p]]) == Flatten(groups) + [p]
  {
    assert (groups + [[p]])[..|groups|] == groups;
    if groups != [] {
      var last := groups[|groups| - 1];
      assert groups[|groups| - 1 := last + [p]][..|groups| - 1] == groups[..|groups| - 1];
      assert Flatten(groups[..|groups| - 1]) + (last + [p]) == Flatten(groups[..|groups| - 1]) + last + [p];
    }
  }

  /** Every group fits and its chunk is not empty. */
  predicate Sound(groups: seq<seq<string>>, maxLen: nat) {
    forall i :: 0 <= i < |groups| ==> groups[i] != [] && 0 < |Join(groups[i])| <= maxLen
  }

  lemma {:induction false} GreedySound(paragraphs: seq<string>, maxLen: nat)
    requires Fit(paragraphs, maxLen)
    ensures Sound(Greedy(paragraphs, maxLen), maxLen)
  {
    if paragraphs == [] {
    } else {
      var init, p := paragraphs[..|paragraphs| - 1], paragraphs[|paragraphs| - 1];
      GreedySound(init, maxLen);
      var before := Greedy(init, maxLen);
      if before != [] {
        JoinMore(before[|before| - 1], p);
      }
    }
  }

  lemma {:induction false} GreedyFlattens(paragraphs: seq<string>, maxLen: nat)
    ensures Flatten(Greedy(paragraphs, maxLen)) == paragraphs
  {
    if paragraphs == [] {
    } else {
      var init, p := paragraphs[..|paragraphs| - 1], paragraphs[|paragraphs| - 1];
      GreedyFlattens(init, maxLen);
      FlattenMore(Greedy(init, maxLen), p);
      assert paragraphs == init + [p];
    }
  }

  lemma GreedyIsGrouping(paragraphs: seq<string>, maxLen: nat)
    requires Fit(paragraphs, maxLen)
    ensures Grouping(Greedy(paragraphs, maxLen), paragraphs, maxLen)
    ensures Sound(Greedy(paragraphs, maxLen), maxLen)
  {
    GreedySound(paragraphs, maxLen);
    GreedyFlattens(paragraphs, maxLen);
  }

  lemma {:induction false} GreedyIsPack(paragraphs: seq<string>, maxLen: nat)
    requires Fit(paragraphs, maxLen) && maxLen > 0
    ensures var groups := Greedy(paragraphs, maxLen);
            AddAll(paragraphs, maxLen) ==
            if groups == [] then Pack([], "")
            else Pack(JoinAll(groups[..|groups| - 1]), Join(groups[|groups| - 1]))
  {
    if paragraphs == [] {
    } else {
      var init, p := paragraphs[..|paragraphs| - 1], paragraphs[|paragraphs| - 1];
      GreedyIsPack(init, maxLen);
      GreedyIsGrouping(init, maxLen);
      var before, groups := Greedy(init, maxLen), Greedy(paragraphs, maxLen);
      if before != [] && |groups| == |before| {
        assert groups[..|groups| - 1] == before[..|before| - 1];
        JoinMore(before[|before| - 1], p);
      } else {
        assert groups[..|groups| - 1] == before;
      }
    }
  }

  /** When every paragraph fits, the chunks are a grouping of the paragraphs. */
  lemma ChunksAreGroups(paragraphs: seq<string>, maxLen: nat)
    requires Fit(paragraphs, maxLen) && maxLen > 0
    ensures Grouping(Greedy(paragraphs, maxLen), paragraphs, maxLen)
    ensures Chunks(paragraphs, maxLen) == JoinAll(Greedy(paragraphs, maxLen))
  {
    GreedyIsGrouping(paragraphs, maxLen);
    GreedyIsPack(paragraphs, maxLen);
  }

  lemma {:induction false} JoinAllLength(groups: seq<seq<string>>)
    ensures |JoinAll(groups)| == |groups|
  {
    if groups == [] {
    } else {
      JoinAllLength(groups[..|groups| - 1]);
    }
  }

  /** Greedy stays ahead of any grouping: fewer groups, or as many with a last one no longer. */
  predicate Leads(greedy: seq<seq<string>>, groups: seq<seq<string>>) {
    || |greedy| < |groups|
    || (|greedy| == |groups| && (greedy != [] ==> |Join(greedy[|greedy| - 1])| <= |Join(groups[|groups| - 1])|))
  }

  /** Adding a paragraph keeps the lead, whether the other grouping opens a group for it or not. */
  lemma LeadKept(before: seq<seq<string>>, paragraphs: seq<string>, maxLen: nat, groups: seq<seq<string>>)
    requires paragraphs != [] && before == Greedy(paragraphs[..|paragraphs| - 1], maxLen)
    requires groups != [] && |Join(groups[|groups| - 1])| <= maxLen
    requires var last := groups[|groups| - 1];
             && last != [] && last[|last| - 1] == paragraphs[|paragraphs| - 1]
             && Leads(before, if |last| == 1 then groups[..|groups| - 1]
                      else groups[|groups| - 1 := last[..|last| - 1]])
    ensures Leads(Greedy(paragraphs, maxLen), groups)
  {
    var p, last := paragraphs[|paragraphs| - 1], groups[|groups| - 1];
    assert last == last[..|last| - 1] + [p];
    JoinMore(last[..|last| - 1], p);
    JoinMore([], p);
    assert [] + [p] == [p];
    if before != [] {
      JoinMore(before[|before| - 1], p);
    }
  }

  lemma {:induction false} GreedyLeads(paragraphs: seq<string>, maxLen: nat, groups: seq<seq<string>>)
    requires Fit(paragraphs, maxLen) && Grouping(groups, paragraphs, maxLen)
    ensures Leads(Greedy(paragraphs, maxLen), groups)
  {
    if paragraphs == [] {
    } else {
      var init := paragraphs[..|paragraphs| - 1];
      var last := groups[|groups| - 1];
      if |last| == 1 {
        assert Flatten(groups[..|groups| - 1]) == init;
        GreedyLeads(init, maxLen, groups[..|groups| - 1]);
      } else {
        WithoutLast(groups, paragraphs, maxLen);
        GreedyLeads(init, maxLen, groups[|groups| - 1 := last[..|last| - 1]]);
      }
      LeadKept(Greedy(init, maxLen), paragraphs, maxLen, groups);
    }
  }

  lemma WithoutLast(groups: seq<seq<string>>, paragraphs: seq<string>, maxLen: nat)
    requires Grouping(groups, paragraphs, maxLen) && groups != [] && |groups[|groups| - 1]| > 1
    ensures var last := groups[|groups| - 1];
            Grouping(groups[|groups| - 1 := last[..|last| - 1]], paragraphs[..|paragraphs| - 1], maxLen)
  {
    var last := groups[|groups| - 1];
    var shorter := groups[|groups| - 1 := last[..|last| - 1]];
    assert shorter[..|groups| - 1] == groups[..|groups| - 1];
    assert Flatten(shorter) == Flatten(groups[..|groups| - 1]) + last[..|last| - 1];
    assert paragraphs == Flatten(groups[..|groups| - 1]) + last;
    JoinMore(last[..|last| - 1], last[|last| - 1]);
    assert last == last[..|last| - 1] + [last[|last| - 1]];
  }

  /** When every paragraph fits, no grouping has fewer groups than there are chunks. */
  lemma FewestChunks(paragraphs: seq<string>, maxLen: nat, groups: seq<seq<string>>)
    requires Fit(paragraphs, maxLen) && maxLen > 0 && Grouping(groups, paragraphs, maxLen)
    ensures |Chunks(paragraphs, maxLen)| <= |groups|
  {
    ChunksAreGroups(paragraphs, maxLen);
    GreedyLeads(paragraphs, maxLen, groups);
    JoinAllLength(Greedy(paragraphs, maxLen));
  }

  // ----- Cuts and boundaries -----

  lemma Times(k: nat, step: nat)
    requires k > 0
    ensures k * step == (k - 1) * step + step
  {
  }

  /** The pieces of a cut all have the maximal length but the last, which has what is left. */
  lemma {:induction false} PieceIsAt(p: string, maxLen: nat, k: nat)
    requires maxLen > 0 && k < |Cut(p, maxLen)|
    ensures var at := k * maxLen;
            at < |p| && Cut(p, maxLen)[k] == if at + maxLen <= |p| then p[at..at + maxLen] else p[at..]
    decreases k
  {
    if k == 0 {
    } else {
      PieceIsAt(p[maxLen..], maxLen, k - 1);
      Times(k, maxLen);
      var at := (k - 1) * maxLen;
      assert p[maxLen..][at..] == p[at + maxLen..];
      if at + maxLen <= |p| - maxLen {
        assert p[maxLen..][at..at + maxLen] == p[at + maxLen..at + maxLen + maxLen];
      }
    }
  }

  /** There are as many pieces as it takes, none of them empty. */
  lemma {:induction false} PieceCount(p: string, maxLen: nat)
    requires maxLen > 0
    ensures var n := |Cut(p, maxLen)|; n * maxLen >= |p| && (n > 0 ==> (n - 1) * maxLen < |p|)
    decreases |p|
  {
    if |p| <= maxLen {
    } else {
      PieceCount(p[maxLen..], maxLen);
      var n := |Cut(p, maxLen)|;
      Times(n, maxLen);
      if n > 1 {
        Times(n - 1, maxLen);
      }
    }
  }

  lemma AddAllMore(paragraphs: seq<string>, p: string, maxLen: nat)
    requires maxLen > 0
    ensures AddAll(paragraphs + [p], maxLen) == Add(AddAll(paragraphs, maxLen), p, maxLen)
  {
    assert (paragraphs + [p])[..|paragraphs|] == paragraphs;
  }

  lemma LastApart(a: seq<string>, b: seq<string>)
    requires b != []
    ensures b == b[..|b| - 1] + [b[|b| - 1]] && a + b == a + b[..|b| - 1] + [b[|b| - 1]]
  {
  }

  /** After a pack that has nothing open, the rest is packed as if it stood alone. */
  lemma {:induction false} PacksApart(a: seq<string>, b: seq<string>, maxLen: nat)
    requires maxLen > 0 && AddAll(a, maxLen).current == ""
    ensures AddAll(a + b, maxLen) ==
            Pack(AddAll(a, maxLen).chunks + AddAll(b, maxLen).chunks, AddAll(b, maxLen).current)
  {
    if b == [] {
      assert a + b == a;
    } else {
      var init, p := b[..|b| - 1], b[|b| - 1];
      PacksApart(a, init, maxLen);
      LastApart(a, b);
      AddAllMore(a + init, p, maxLen);
      AddAllMore(init, p, maxLen);
      AddApart(AddAll(a, maxLen).chunks, AddAll(init, maxLen), p, maxLen);
    }
  }

  lemma AddApart(chunks: seq<string>, s: Pack, p: string, maxLen: nat)
    requires maxLen > 0
    ensures Add(Pack(chunks + s.chunks, s.current), p, maxLen) ==
            Pack(chunks + Add(s, p, maxLen).chunks, Add(s, p, maxLen).current)
  {
    assert chunks + s.chunks + [s.current] == chunks + (s.chunks + [s.current]);
    assert chunks + s.chunks + [s.current] + Cut(p, maxLen) == chunks + (s.chunks + [s.current] + Cut(p, maxLen));
    assert chunks + s.chunks + Cut(p, maxLen) == chunks + (s.chunks + Cut(p, maxLen));
  }

  /** A paragraph that is too long is cut by itself, and the paragraphs on its two sides are packed apart. */
  lemma LongParagraphApart(a: seq<string>, p: string, b: seq<string>, maxLen: nat)
    requires maxLen > 0 && |p| > maxLen
    ensures Chunks(a + [p] + b, maxLen) == Chunks(a, maxLen) + Cut(p, maxLen) + Chunks(b, maxLen)
  {
    AddAllMore(a, p, maxLen);
    PacksApart(a + [p], b, maxLen);
  }

  /** The first paragraph of the next group does not fit behind the group. */
  predicate FullBefore(group: seq<string>, next: seq<string>, maxLen: nat) {
    group != [] && next != [] && |Join(group)| + 1 + |next[0]| > maxLen
  }

  /** No two consecutive groups could have shared a paragraph more. */
  predicate Full(groups: seq<seq<string>>, maxLen: nat) {
    forall i, j :: 0 <= i < |groups| && j == i + 1 && j < |groups| ==> FullBefore(groups[i], groups[j], maxLen)
  }

  /** When every paragraph fits, each chunk takes all the paragraphs it can before the next is begun. */
  lemma {:induction false} GreedyFills(paragraphs: seq<string>, maxLen: nat)
    requires Fit(paragraphs, maxLen)
    ensures Full(Greedy(paragraphs, maxLen), maxLen)
    ensures paragraphs != [] ==> Greedy(paragraphs, maxLen) != []
  {
    if paragraphs == [] {
    } else {
      GreedyFills(paragraphs[..|paragraphs| - 1], maxLen);
      GreedySound(paragraphs[..|paragraphs| - 1], maxLen);
    }
  }
}
