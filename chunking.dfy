/** Splitting a completion into messages short enough for the chat platform
    (Bot.py:125-130). */
module Chunking {
  import opened Text

  /** The message size limit the bot cuts replies at. */
  const ChunkSize: nat := 2000

  /** `ceil(n / ChunkSize)` */
  function ChunkCount(n: nat): nat
  {
    (n + ChunkSize - 1) / ChunkSize
  }

  /** `min(k * ChunkSize, |s|)`: where Python's clamped slice bound lands. */
  function SliceBound(s: string, k: nat): nat
  {
    if k * ChunkSize <= |s| then k * ChunkSize else |s|
  }

  /** `[s[i:i+2000] for i in range(0, len(s), 2000)]`, indexed by chunk number. */
  function Slices(s: string): (r: seq<string>)
  {
    seq(ChunkCount(|s|), (k: int) requires 0 <= k < ChunkCount(|s|) =>
      s[k * ChunkSize .. SliceBound(s, k + 1)])
  }

  /** The messages sent for a reply: the slices when it is longer than the
      limit, and the reply itself (even an empty one) otherwise. */
  function Replies(s: string): seq<string>
  {
    if |s| > ChunkSize then Slices(s) else [s]
  }

  /** Slicing peels one full chunk off the front of a long string. */
  lemma SlicesUnfold(s: string)
    ensures |s| == 0 ==> Slices(s) == []
    ensures 0 < |s| <= ChunkSize ==> Slices(s) == [s]
    ensures |s| > ChunkSize ==> Slices(s) == [s[..ChunkSize]] + Slices(s[ChunkSize..])
  {
    if |s| > ChunkSize {
      var t := s[ChunkSize..];
      var a, b := Slices(s), [s[..ChunkSize]] + Slices(t);
      assert ChunkCount(|s|) == ChunkCount(|t|) + 1;
      forall k | 0 <= k < |a| ensures a[k] == b[k] {
        if k > 0 {
          SliceShift(s, k);
        }
      }
    } else if |s| > 0 {
      assert ChunkCount(|s|) == 1;
      assert Slices(s)[0] == s;
    }
  }

  /** Slice k of a long string is slice k - 1 of what follows its first chunk. */
  lemma SliceShift(s: string, k: nat)
    requires |s| > ChunkSize && 0 < k < ChunkCount(|s|)
    ensures ChunkCount(|s| - ChunkSize) == ChunkCount(|s|) - 1
    ensures Slices(s)[k] == Slices(s[ChunkSize..])[k - 1]
  {
    var t := s[ChunkSize..];
    var lo, hi := (k - 1) * ChunkSize, SliceBound(t, k);
    assert k * ChunkSize == ChunkSize + lo;
    assert SliceBound(s, k + 1) == ChunkSize + hi;
    assert t[lo..hi] == s[ChunkSize + lo .. ChunkSize + hi];
  }

  lemma {:induction false} SlicesConcat(s: string)
    ensures Concat(Slices(s)) == s
    decreases |s|
  {
    SlicesUnfold(s);
    if |s| > ChunkSize {
      SlicesConcat(s[ChunkSize..]);
      ConcatCons(s[..ChunkSize], Slices(s[ChunkSize..]));
    } else if |s| > 0 {
      assert [s][..0] == [];
    }
  }

  /** Every slice but the last has exactly ChunkSize characters; the last has 1..ChunkSize. */
  lemma SliceLengths(s: string)
    ensures forall k :: 0 <= k < |Slices(s)| - 1 ==> |Slices(s)[k]| == ChunkSize
    ensures |s| > 0 ==> 1 <= |Slices(s)[|Slices(s)| - 1]| <= ChunkSize
  {
    var n := ChunkCount(|s|);
    forall k | 0 <= k < n - 1 ensures |Slices(s)[k]| == ChunkSize {
      assert (k + 1) * ChunkSize <= |s|;
    }
    if |s| > 0 {
      assert (n - 1) * ChunkSize < |s| <= n * ChunkSize;
    }
  }

  /** The round trip and the size rules for what is sent in reply to one completion. */
  lemma RepliesSpec(s: string)
    ensures Concat(Replies(s)) == s
    ensures |s| <= ChunkSize ==> Replies(s) == [s]
    ensures |s| > ChunkSize ==> |Replies(s)| == ChunkCount(|s|) && |Replies(s)| >= 2
    ensures forall k :: 0 <= k < |Replies(s)| ==> |Replies(s)[k]| <= ChunkSize
    ensures forall k :: 0 <= k < |Replies(s)| - 1 ==> |Replies(s)[k]| == ChunkSize
    ensures |s| > 0 ==> 1 <= |Replies(s)[|Replies(s)| - 1]| <= ChunkSize
  {
    if |s| > ChunkSize {
      SlicesConcat(s);
      SliceLengths(s);
    } else {
      assert [s][..0] == [];
    }
  }
}
