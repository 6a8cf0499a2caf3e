/** Fixed windows with overlap over a text whose white space is already normalised. */
module Chunking {
  /** The window at the head of the text, then those of the text from its next start. */
  function Windows(text: string, chunkSize: nat, overlap: nat): (chunks: seq<string>)
    requires overlap < chunkSize || |text| <= chunkSize
    decreases |text|
  {
    if text == "" then []
    else if |text| <= chunkSize then [text]
    else [text[..chunkSize]] + Windows(text[chunkSize - overlap..], chunkSize, overlap)
  }

  method ChunkText(text: string, chunkSize: nat, overlap: nat) returns (chunks: seq<string>)
    requires overlap < chunkSize || |text| <= chunkSize
    ensures chunks == Windows(text, chunkSize, overlap)
  {
    chunks := [];
    if text == "" {
      return;
    }
    var start, n := 0, |text|;
    while start < n
      invariant 0 <= start < n
      invariant chunks + Windows(text[start..], chunkSize, overlap) == Windows(text, chunkSize, overlap)
    {
      var end := if start + chunkSize <= n then start + chunkSize else n;
      assert text[start..][..end - start] == text[start..end];
      chunks := chunks + [text[start..end]];
      if end == n {
        assert text[start..] == text[start..end];
        break;
      }
      assert text[start..][chunkSize - overlap..] == text[end - overlap..];
      start := end - overlap;
    }
  }

  // ----- Termination -----

  /** Where the loop stands before its `k`-th window; it never tests `start < n` in vain. */
  function StartAt(n: nat, chunkSize: nat, overlap: nat, k: nat): int {
    if k == 0 then 0
    else
      var end := StartAt(n, chunkSize, overlap, k - 1) + chunkSize;
      (if end <= n then end else n) - overlap
  }

  /** The loop leaves at its `k`-th window. */
  predicate Leaves(n: nat, chunkSize: nat, overlap: nat, k: nat) {
    StartAt(n, chunkSize, overlap, k) >= n || StartAt(n, chunkSize, overlap, k) + chunkSize >= n
  }

  lemma {:induction false} Stuck(n: nat, chunkSize: nat, overlap: nat, k: nat)
    requires chunkSize <= overlap && chunkSize < n
    ensures StartAt(n, chunkSize, overlap, k) <= 0 && !Leaves(n, chunkSize, overlap, k)
  {
    if k == 0 {
    } else {
      Stuck(n, chunkSize, overlap, k - 1);
    }
  }

  lemma {:induction false} Advances(n: nat, chunkSize: nat, overlap: nat, k: nat)
    requires overlap < chunkSize && forall j :: 0 <= j < k ==> !Leaves(n, chunkSize, overlap, j)
    ensures StartAt(n, chunkSize, overlap, k) >= k
  {
    if k == 0 {
    } else {
      Advances(n, chunkSize, overlap, k - 1);
      assert !Leaves(n, chunkSize, overlap, k - 1);
    }
  }

  /** The loop terminates exactly when windows advance or the first one holds the whole text. */
  lemma TerminatesIff(n: nat, chunkSize: nat, overlap: nat)
    ensures (exists k: nat :: Leaves(n, chunkSize, overlap, k)) <==> overlap < chunkSize || n <= chunkSize
  {
    if n <= chunkSize {
      assert Leaves(n, chunkSize, overlap, 0);
    } else if overlap < chunkSize {
      if forall k: nat :: !Leaves(n, chunkSize, overlap, k) {
        Advances(n, chunkSize, overlap, n);
        assert Leaves(n, chunkSize, overlap, n);
      }
    } else {
      forall k: nat
        ensures !Leaves(n, chunkSize, overlap, k)
      {
        Stuck(n, chunkSize, overlap, k);
      }
    }
  }

  // ----- Rebuilding -----

  /** The first chunk and every later one without its first `overlap` characters. */
  function Rebuild(chunks: seq<string>, overlap: nat): string {
    if chunks == [] then "" else chunks[0] + DropHeads(chunks[1..], overlap)
  }

  function DropHeads(chunks: seq<string>, overlap: nat): string {
    if chunks == [] then ""
    else (if overlap <= |chunks[0]| then chunks[0][overlap..] else "") + DropHeads(chunks[1..], overlap)
  }

  lemma {:induction false} DropHeadsRebuilds(text: string, chunkSize: nat, overlap: nat)
    requires overlap < chunkSize && overlap < |text|
    ensures DropHeads(Windows(text, chunkSize, overlap), overlap) == text[overlap..]
    decreases |text|
  {
    if |text| <= chunkSize {
    } else {
      var rest := text[chunkSize - overlap..];
      DropHeadsRebuilds(rest, chunkSize, overlap);
      assert rest[overlap..] == text[chunkSize..];
      assert text[..chunkSize][overlap..] + text[chunkSize..] == text[overlap..];
      assert Windows(text, chunkSize, overlap)[1..] == Windows(rest, chunkSize, overlap);
    }
  }

  /** The text is the first chunk followed by each later chunk without its first `overlap` characters. */
  lemma {:induction false} TextIsRebuilt(text: string, chunkSize: nat, overlap: nat)
    requires overlap < chunkSize || |text| <= chunkSize
    ensures Rebuild(Windows(text, chunkSize, overlap), overlap) == text
  {
    if |text| > chunkSize {
      var rest := text[chunkSize - overlap..];
      DropHeadsRebuilds(rest, chunkSize, overlap);
      assert rest[overlap..] == text[chunkSize..];
      assert Windows(text, chunkSize, overlap)[1..] == Windows(rest, chunkSize, overlap);
      assert text[..chunkSize] + text[chunkSize..] == text;
    }
  }

  // ----- Coverage -----

  /** The `k`-th chunk stands at `at` in the text and holds the text from `i` to `j`. */
  predicate Holds(text: string, chunk: string, at: nat, i: nat, j: nat) {
    at <= i <= j <= at + |chunk| <= |text| && chunk == text[at..at + |chunk|]
  }

  /** Where the `k`-th chunk starts. */
  function Start(step: nat, k: nat): nat {
    if k == 0 then 0 else step + Start(step, k - 1)
  }

  /** Some chunk holds the `length` characters from `i`. */
  predicate InOneChunk(text: string, chunkSize: nat, overlap: nat, i: nat, length: nat)
    requires overlap < chunkSize
  {
    var chunks := Windows(text, chunkSize, overlap);
    exists k :: 0 <= k < |chunks| && Holds(text, chunks[k], Start(chunkSize - overlap, k), i, i + length)
  }

  lemma Shift(text: string, step: nat, a: nat, b: nat)
    requires step <= |text| && a <= b <= |text| - step
    ensures text[step..][a..b] == text[step + a..step + b]
  {
  }

  /** The chunk is the window of the text at `at`; only the last one may be short. */
  predicate Stands(text: string, chunk: string, at: nat, chunkSize: nat) {
    && at + |chunk| <= |text| && chunk == text[at..at + |chunk|] && |chunk| <= chunkSize
    && (|chunk| < chunkSize ==> at + |chunk| == |text|)
  }

  lemma {:induction false} ChunkStands(text: string, chunkSize: nat, overlap: nat, k: nat)
    requires overlap < chunkSize && k < |Windows(text, chunkSize, overlap)|
    ensures Stands(text, Windows(text, chunkSize, overlap)[k], Start(chunkSize - overlap, k), chunkSize)
    decreases |text|
  {
    if k == 0 {
    } else {
      var step := chunkSize - overlap;
      var at, chunk := Start(step, k - 1), Windows(text, chunkSize, overlap)[k];
      ChunkStands(text[step..], chunkSize, overlap, k - 1);
      Shift(text, step, at, at + |chunk|);
    }
  }

  lemma {:induction false} ShortIsCovered(text: string, chunkSize: nat, overlap: nat, i: nat, j: nat) returns (k: nat)
    requires overlap < chunkSize && i <= j <= |text| && (j - i <= overlap + 1 || |text| <= chunkSize) && text != ""
    ensures k < |Windows(text, chunkSize, overlap)|
    ensures Start(chunkSize - overlap, k) <= i
    ensures j <= Start(chunkSize - overlap, k) + |Windows(text, chunkSize, overlap)[k]|
    decreases |text|
  {
    var step := chunkSize - overlap;
    if j <= chunkSize || |text| <= chunkSize {
      k := 0;
    } else {
      var before := ShortIsCovered(text[step..], chunkSize, overlap, i - step, j - step);
      k := before + 1;
    }
  }

  lemma LaterStart(step: nat, k: nat)
    requires k > 0
    ensures Start(step, k) >= step
  {
  }

  /**
   Every stretch of `length` characters lies inside one chunk exactly when `length` is at most
   `overlap + 1` or there is only one chunk.
   */
  lemma CoverageIff(text: string, chunkSize: nat, overlap: nat, length: nat)
    requires overlap < chunkSize && 0 < length <= |text|
    ensures (forall i :: 0 <= i <= |text| - length ==> InOneChunk(text, chunkSize, overlap, i, length)) <==>
            length <= overlap + 1 || |text| <= chunkSize
  {
    var chunks, step := Windows(text, chunkSize, overlap), chunkSize - overlap;
    if |text| <= chunkSize || length <= overlap + 1 {
      forall i | 0 <= i <= |text| - length
        ensures InOneChunk(text, chunkSize, overlap, i, length)
      {
        var k := ShortIsCovered(text, chunkSize, overlap, i, i + length);
        ChunkStands(text, chunkSize, overlap, k);
        assert Holds(text, chunks[k], Start(step, k), i, i + length);
      }
    } else {
      var i := if step - 1 <= |text| - length then step - 1 else |text| - length;
      forall k | 0 <= k < |chunks|
        ensures !Holds(text, chunks[k], Start(step, k), i, i + length)
      {
        ChunkStands(text, chunkSize, overlap, k);
        if k > 0 {
          LaterStart(step, k);
        }
      }
      assert !InOneChunk(text, chunkSize, overlap, i, length);
    }
  }

  // ----- The windows -----

  lemma Times(k: nat, step: nat)
    requires k > 0
    ensures k * step == (k - 1) * step + step
  {
  }

  lemma {:induction false} StartIsProduct(step: nat, k: nat)
    ensures Start(step, k) == k * step
  {
    if k == 0 {
    } else {
      StartIsProduct(step, k - 1);
      Times(k, step);
    }
  }

  /** The `k`-th chunk is the stretch of the chunk size from `k` steps on, or what is left of the text there. */
  lemma WindowIsAt(text: string, chunkSize: nat, overlap: nat, k: nat)
    requires overlap < chunkSize && k < |Windows(text, chunkSize, overlap)|
    ensures var at := k * (chunkSize - overlap);
            0 <= at <= |text| && Windows(text, chunkSize, overlap)[k] ==
                                 if at + chunkSize <= |text| then text[at..at + chunkSize] else text[at..]
  {
    ChunkStands(text, chunkSize, overlap, k);
    StartIsProduct(chunkSize - overlap, k);
  }

  /** There are chunks up to the first that reaches the end of the text, and none for an empty text. */
  lemma {:induction false} WindowCount(text: string, chunkSize: nat, overlap: nat)
    requires overlap < chunkSize
    ensures var n, step := |Windows(text, chunkSize, overlap)|, chunkSize - overlap;
            && (n == 0 <==> text == "")
            && (n > 0 ==> (n - 1) * step + chunkSize >= |text|)
            && (n > 1 ==> (n - 2) * step + chunkSize < |text|)
    decreases |text|
  {
    var step := chunkSize - overlap;
    if |text| <= chunkSize {
    } else {
      WindowCount(text[step..], chunkSize, overlap);
      var n := |Windows(text, chunkSize, overlap)|;
      Times(n - 1, step);
      if n > 2 {
        Times(n - 2, step);
      }
    }
  }

  /** A text that fits is one chunk, whatever the overlap. */
  lemma ShortIsOneWindow(text: string, chunkSize: nat, overlap: nat)
    requires |text| <= chunkSize
    ensures Windows(text, chunkSize, overlap) == if text == "" then [] else [text]
  {
  }
}
