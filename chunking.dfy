/**
 * The text chunker of core/utils/chunking.py.
 *
 * `chunk_text(text, max_chars)` is the list comprehension
 * `[text[i:i+max_chars] for i in range(0, len(text), max_chars)]`, and when
 * that list is empty (empty text) the fallback `[text]`.  Python's `range`
 * raises for a zero step, so `maxChars > 0` is required here.
 */
module Chunking {

  function Min(a: int, b: int): int {
    if a <= b then a else b
  }

  /** `"".join(chunks)`. */
  function Concat(chunks: seq<string>): (s: string) {
    if chunks == [] then "" else chunks[0] + Concat(chunks[1..])
  }

  /**
   * The slices `text[i:i+m]` for `i` in `range(start, len(text), m)`.
   * Python clamps the end of a slice to the length of the text, hence the Min.
   * There are ceiling((|text| - start) / m) of them, stated without division.
   */
  function SlicesFrom(text: string, m: nat, start: nat): (chunks: seq<string>)
    requires m > 0
    ensures start >= |text| ==> chunks == []
    ensures start <= |text| ==> (|chunks| - 1) * m < |text| - start <= |chunks| * m
    ensures forall k :: 0 <= k < |chunks| ==> 0 < |chunks[k]| <= m
    ensures forall k :: 0 <= k < |chunks| - 1 ==> |chunks[k]| == m
    decreases |text| - start
  {
    if start >= |text| then []
    else
      var rest := SlicesFrom(text, m, start + m);
      var c := |rest|;
      assert (c + 1) * m == c * m + m && (c + 1 - 1) * m == c * m;
      [text[start .. Min(start + m, |text|)]] + rest
  }

  /** A positive multiple of m is at least m. */
  lemma {:induction false} MulAtLeast(a: int, m: nat)
    requires a >= 1
    ensures a * m >= m
    decreases a
  {
    if a > 1 {
      MulAtLeast(a - 1, m);
      assert a * m == (a - 1) * m + m;
    }
  }

  /** Division is determined by a quotient and a remainder below the divisor. */
  lemma DivOfRemainder(x: int, m: nat, q: int, r: int)
    requires m > 0 && 0 <= r < m && x == q * m + r
    ensures x / m == q
  {
    var q', r' := x / m, x % m;
    assert x == q' * m + r';
    if q' > q {
      MulAtLeast(q' - q, m);
      assert false;
    } else if q' < q {
      MulAtLeast(q - q', m);
      assert false;
    }
  }

  /** `chunk_text(text, maxChars)`. */
  function ChunkText(text: string, maxChars: nat): (chunks: seq<string>)
    requires maxChars > 0
    ensures chunks != []
    ensures text == "" ==> chunks == [""]
    ensures text != "" ==> (|chunks| - 1) * maxChars < |text| <= |chunks| * maxChars
    ensures text != "" ==> forall k :: 0 <= k < |chunks| ==> chunks[k] != ""
    ensures forall k :: 0 <= k < |chunks| ==> |chunks[k]| <= maxChars
    ensures forall k :: 0 <= k < |chunks| - 1 ==> |chunks[k]| == maxChars
  {
    var sliced := SlicesFrom(text, maxChars, 0);
    if sliced == [] then [text] else sliced
  }

  /** For a non-empty text there are ceiling(|text| / maxChars) chunks. */
  lemma ChunkCount(text: string, maxChars: nat)
    requires maxChars > 0 && text != ""
    ensures |ChunkText(text, maxChars)| == (|text| + maxChars - 1) / maxChars
  {
    var c := |ChunkText(text, maxChars)|;
    assert (c - 1) * maxChars == c * maxChars - maxChars;
    DivOfRemainder(|text| + maxChars - 1, maxChars, c, |text| + maxChars - 1 - c * maxChars);
  }

  /** Joining the slices taken from `start` gives back the text from `start` on. */
  lemma {:induction false} ConcatSlicesFrom(text: string, m: nat, start: nat)
    requires m > 0 && start <= |text|
    ensures Concat(SlicesFrom(text, m, start)) == text[start..]
    decreases |text| - start
  {
    if start < |text| {
      var end := Min(start + m, |text|);
      var rest := SlicesFrom(text, m, start + m);
      assert SlicesFrom(text, m, start) == [text[start..end]] + rest;
      if start + m <= |text| {
        ConcatSlicesFrom(text, m, start + m);
        assert text[start..] == text[start..end] + text[start + m..];
      } else {
        assert end == |text|;
      }
    }
  }

  /** Joining the chunks gives back the text. */
  lemma ChunkTextJoins(text: string, maxChars: nat)
    requires maxChars > 0
    ensures Concat(ChunkText(text, maxChars)) == text
  {
    ConcatSlicesFrom(text, maxChars, 0);
    if text == "" {
      assert Concat([""]) == "" + Concat([]);
    }
  }

  /** Slice k taken from `start` begins k steps of m after `start`. */
  lemma {:induction false} SliceAt(text: string, m: nat, start: nat, k: nat)
    requires m > 0 && k < |SlicesFrom(text, m, start)|
    ensures start + k * m < |text|
    ensures SlicesFrom(text, m, start)[k] == text[start + k * m .. Min(start + k * m + m, |text|)]
    decreases k
  {
    if k > 0 {
      SliceAt(text, m, start + m, k - 1);
      assert start + m + (k - 1) * m == start + k * m;
    }
  }

  /** Chunk k of a non-empty text is `text[k*maxChars : k*maxChars + maxChars]`. */
  lemma ChunkTextAt(text: string, maxChars: nat, k: nat)
    requires maxChars > 0 && text != "" && k < |ChunkText(text, maxChars)|
    ensures k * maxChars < |text|
    ensures ChunkText(text, maxChars)[k] == text[k * maxChars .. Min(k * maxChars + maxChars, |text|)]
  {
    SliceAt(text, maxChars, 0, k);
  }
}
