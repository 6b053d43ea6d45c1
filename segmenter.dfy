/**
  Cutting a long recording into recognition windows
  (`transcribe_long_audio_in_segments`, and the length test that routes a
  recording there). All times are integer milliseconds; the decoder's
  `len(audio)` is taken as given.
*/
module Segmenter {

  /** Recordings strictly longer than this are cut into segments. */
  const LongAudioThresholdMs: nat := 60000

  /** Length of every segment but possibly the last. */
  const SegmentLengthMs: nat := 45000

  /** The half-open time range `[start, end)` of one segment. */
  datatype Window = Window(start: nat, end: nat) {
    predicate Holds(t: nat) { start <= t < end }
    function Length(): int { end - start }
  }

  /** `len(audio) / 1000.0 > 60`, stated on whole milliseconds. */
  predicate IsLong(durationMs: nat) {
    durationMs > LongAudioThresholdMs
  }

  function Min(a: nat, b: nat): nat {
    if a <= b then a else b
  }

  /**
    The windows that the loop `for i in range(0, total, 45000)` produces from offset `i` on,
    each ending at `min(i + 45000, total)`.
  */
  function CutFrom(i: nat, total: nat): seq<Window>
    decreases total - i
  {
    if i >= total then []
    else [Window(i, Min(i + SegmentLengthMs, total))] + CutFrom(i + SegmentLengthMs, total)
  }

  /** The windows of a recording of `total` milliseconds. */
  function Cut(total: nat): seq<Window> {
    CutFrom(0, total)
  }

  /**
    The cutting loop: appends one window per step of the range, as the source
    appends each `audio[i:end]` to its `segments` list.
  */
  method CutWindows(total: nat) returns (windows: seq<Window>)
    ensures windows == Cut(total)
  {
    windows := [];
    var i: nat := 0;
    while i < total
      invariant i == |windows| * SegmentLengthMs
      invariant windows + CutFrom(i, total) == Cut(total)
      decreases total - i
    {
      var end := Min(i + SegmentLengthMs, total);
      windows := windows + [Window(i, end)];
      i := i + SegmentLengthMs;
    }
  }

  /** The `k`-th window from offset `i` in closed form. */
  lemma {:induction false} CutFromAt(i: nat, total: nat)
    ensures |CutFrom(i, total)| == if i >= total then 0 else (total - i + SegmentLengthMs - 1) / SegmentLengthMs
    ensures forall k :: 0 <= k < |CutFrom(i, total)| ==>
              CutFrom(i, total)[k] == Window(i + k * SegmentLengthMs, Min(i + k * SegmentLengthMs + SegmentLengthMs, total))
    decreases total - i
  {
    if i < total {
      var rest := CutFrom(i + SegmentLengthMs, total);
      CutFromAt(i + SegmentLengthMs, total);
      forall k | 1 <= k < |CutFrom(i, total)|
        ensures CutFrom(i, total)[k] == Window(i + k * SegmentLengthMs, Min(i + k * SegmentLengthMs + SegmentLengthMs, total))
      {
        assert CutFrom(i, total)[k] == rest[k - 1];
      }
    }
  }

  /** There are `ceil(total / 45000)` windows: enough to reach `total`, one fewer would not. */
  lemma CutCount(total: nat)
    ensures |Cut(total)| == (total + SegmentLengthMs - 1) / SegmentLengthMs
    ensures |Cut(total)| * SegmentLengthMs >= total
    ensures total > 0 ==> (|Cut(total)| - 1) * SegmentLengthMs < total
  {
    CutFromAt(0, total);
  }

  /**
    The windows tile `[0, total)`: the first starts at 0, each starts where the
    previous one ended, the last ends at `total`; every window is non-empty and
    at most 45000 ms long, and all but the last are exactly 45000 ms.
  */
  lemma CutTiles(total: nat)
    ensures total == 0 <==> Cut(total) == []
    ensures total > 0 ==> Cut(total)[0].start == 0 && Cut(total)[|Cut(total)| - 1].end == total
    ensures forall k :: 0 <= k < |Cut(total)| - 1 ==> Cut(total)[k].end == Cut(total)[k + 1].start
    ensures forall k :: 0 <= k < |Cut(total)| ==> 0 < Cut(total)[k].Length() <= SegmentLengthMs
    ensures forall k :: 0 <= k < |Cut(total)| - 1 ==> Cut(total)[k].Length() == SegmentLengthMs
  {
    CutFromAt(0, total);
    CutCount(total);
  }

  /** Earlier windows end no later than later ones start: no two windows overlap. */
  lemma CutOrdered(total: nat)
    ensures forall j, k :: 0 <= j < k < |Cut(total)| ==> Cut(total)[j].end <= Cut(total)[k].start
  {
    CutFromAt(0, total);
  }

  /** Every instant of the recording lies in exactly one window, the `t / 45000`-th. */
  lemma CutCovers(total: nat, t: nat)
    requires t < total
    ensures t / SegmentLengthMs < |Cut(total)|
    ensures Cut(total)[t / SegmentLengthMs].Holds(t)
    ensures forall k :: 0 <= k < |Cut(total)| && Cut(total)[k].Holds(t) ==> k == t / SegmentLengthMs
  {
    CutFromAt(0, total);
    CutCount(total);
  }

  /** A recording routed to the segmented path is always cut into at least two windows. */
  lemma LongAudioHasSeveralWindows(total: nat)
    requires IsLong(total)
    ensures |Cut(total)| >= 2
  {
    CutCount(total);
  }
}
