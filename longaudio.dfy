/**
  The segmented path for recordings longer than 60 s
  (`transcribe_long_audio_in_segments`): cut the audio into windows, export
  and read back each window, send it to the recogniser once under a 45 s
  socket timeout, turn every failure into a visible marker for that segment,
  and stitch the segment texts in index order.
*/
module LongAudio {
  import opened Text
  import opened Services
  import opened Segmenter
  import opened Stitching

  /** The socket default timeout set around each segment's request. */
  const SegmentTimeout: Deadline := Seconds(45)

  const SilentSegmentMarker := Bracket("Segmento silencioso")

  /** The text of a segment (numbered from 1) whose reading or recognition raised an exception. */
  function SegmentErrorMarker(k: nat): string {
    Bracket("Erro no segmento " + NatToString(k))
  }

  /** The whole result when an exception escapes the per-segment handler (an export failure). */
  function SegmentedFailureMarker(detail: string): string {
    Bracket("Erro na transcrição por segmentos: " + detail)
  }

  /**
    What the codec and the reader do with one window's clip `audio[start:end]`:
    exporting it as a temporary WAV (resampled and normalised), then reading
    that WAV back with noise calibration; `stamp` is the time the name was made.
  */
  datatype SegmentIO = SegmentIO(exported: Step, read: ReadOutcome, stamp: string)

  /** The temporary file of segment `idx` (0-based). */
  function SegmentTempName(idx: nat, stamp: string): string {
    "segment_" + NatToString(idx) + "_" + stamp + ".wav"
  }

  /**
    The text of segment number `k` (1-based): the recognised text, the
    silence marker for a text that `strip()` empties (see
    `StripEmptyIffAllSpace`), and the segment's error marker when the
    read failed or the recogniser raised anything at all.
  */
  function SegmentText(k: nat, read: ReadOutcome, answer: Recognition): string {
    match read
    case ReadFailed(_) => SegmentErrorMarker(k)
    case Read(_) =>
      match answer
      case Heard(text) => if AllSpace(text) then SilentSegmentMarker else text
      case _ => SegmentErrorMarker(k)
  }

  /** The request a segment's read leads to: one if the read succeeded, none otherwise. */
  function SegmentRequests(read: ReadOutcome): seq<Request> {
    if read.Read? then [Request(read.data, SegmentTimeout)] else []
  }

  /** The texts collected and the requests made while handling the first segments. */
  datatype Progress = Progress(texts: seq<string>, requests: seq<Request>)

  /**
    A run of the segment loop: the texts of the segments handled, the requests
    made, and the message of the exception that ended it early, if any.
  */
  datatype SegmentsRun = SegmentsRun(texts: seq<string>, requests: seq<Request>, aborted: Option<string>)

  /** What the codec and the reader do with each window, in order. */
  function Outcomes(io: Window -> SegmentIO, windows: seq<Window>): (segs: seq<SegmentIO>)
    ensures |segs| == |windows|
    ensures forall i :: 0 <= i < |windows| ==> segs[i] == io(windows[i])
  {
    if windows == [] then [] else Outcomes(io, windows[..|windows| - 1]) + [io(windows[|windows| - 1])]
  }

  /** How many of the first `k` segments were read successfully, and so sent to the recogniser. */
  function Reads(segs: seq<SegmentIO>, k: nat): (r: nat)
    requires k <= |segs|
    ensures r <= k
  {
    if k == 0 then 0 else Reads(segs, k - 1) + |SegmentRequests(segs[k - 1].read)|
  }

  /**
    The loop after handling the first `k` segments, all of them exported:
    `segs[i]` is what happens to segment `i`, `answers[m]` the answer to the
    run's `m`-th request.
  */
  function Processed(segs: seq<SegmentIO>, answers: seq<Recognition>, k: nat): (p: Progress)
    requires k <= |segs| == |answers|
    ensures |p.texts| == k && |p.requests| == Reads(segs, k)
  {
    if k == 0 then Progress([], [])
    else
      var p := Processed(segs, answers, k - 1);
      Progress(p.texts + [SegmentText(k, segs[k - 1].read, answers[|p.requests|])],
               p.requests + SegmentRequests(segs[k - 1].read))
  }

  /** The first segment from `i` on whose export fails, or `|segs|` when none does. */
  function Reached(segs: seq<SegmentIO>, i: nat): (k: nat)
    requires i <= |segs|
    ensures i <= k <= |segs|
    ensures k < |segs| ==> segs[k].exported.Failed?
    decreases |segs| - i
  {
    if i == |segs| || segs[i].exported.Failed? then i else Reached(segs, i + 1)
  }

  /** The whole segment loop: every segment up to the first failed export is handled. */
  function Run(segs: seq<SegmentIO>, answers: seq<Recognition>): SegmentsRun
    requires |segs| == |answers|
  {
    var k := Reached(segs, 0);
    var p := Processed(segs, answers, k);
    SegmentsRun(p.texts, p.requests, if k < |segs| then Some(segs[k].exported.detail) else None)
  }

  /** The segment loop over the windows of a recording of `durationMs`, its first request being number `n0`. */
  function Segmented(durationMs: nat, io: Window -> SegmentIO, answer: nat -> Recognition, n0: nat): SegmentsRun {
    var windows := Cut(durationMs);
    Run(Outcomes(io, windows), Upcoming(answer, n0, |windows|))
  }

  lemma SegmentedIsRun(durationMs: nat, io: Window -> SegmentIO, answer: nat -> Recognition, n0: nat, windows: seq<Window>)
    requires windows == Cut(durationMs)
    ensures Segmented(durationMs, io, answer, n0) == Run(Outcomes(io, windows), Upcoming(answer, n0, |windows|))
  {
  }

  /** The result the segmented path returns. */
  function SegmentedText(run: SegmentsRun): string {
    match run.aborted
    case Some(detail) => SegmentedFailureMarker(detail)
    case None => Stitch(run.texts)
  }

  /** The temporary files of the first `k` segments. */
  function SegmentTempNames(segs: seq<SegmentIO>, k: nat): set<string>
    requires k <= |segs|
  {
    if k == 0 then {} else SegmentTempNames(segs, k - 1) + {SegmentTempName(k - 1, segs[k - 1].stamp)}
  }

  /**
    The temporary file the loop leaves behind when it stops at segment `k`:
    the file a failed export left there, if any. The handler that ends the
    run never deletes it.
  */
  function Leftover(segs: seq<SegmentIO>, k: nat): set<string>
    requires k <= |segs|
  {
    if k < |segs| && segs[k].exported.Failed? && segs[k].exported.leftFile
    then {SegmentTempName(k, segs[k].stamp)} else {}
  }

  /** Handling one more segment appends its text, and its request if it was read. */
  lemma ProcessedStep(segs: seq<SegmentIO>, answers: seq<Recognition>, k: nat)
    requires k < |segs| == |answers|
    ensures Processed(segs, answers, k + 1).texts
            == Processed(segs, answers, k).texts + [SegmentText(k + 1, segs[k].read, answers[Reads(segs, k)])]
    ensures Processed(segs, answers, k + 1).requests
            == Processed(segs, answers, k).requests + SegmentRequests(segs[k].read)
  {
  }

  /** How a run that stops at segment `k` ends: the failure marker of that segment's export, or the stitched texts. */
  lemma RunEndsAt(segs: seq<SegmentIO>, answers: seq<Recognition>, k: nat)
    requires k <= |segs| == |answers| && Reached(segs, 0) == k
    ensures Run(segs, answers).texts == Processed(segs, answers, k).texts
    ensures Run(segs, answers).requests == Processed(segs, answers, k).requests
    ensures k < |segs| ==> SegmentedText(Run(segs, answers)) == SegmentedFailureMarker(segs[k].exported.detail)
    ensures k == |segs| ==> SegmentedText(Run(segs, answers)) == Stitch(Processed(segs, answers, k).texts)
  {
  }

  /** The loop stops at the first failed export, and only there. */
  lemma {:induction false} ReachedAt(segs: seq<SegmentIO>, i: nat, k: nat)
    requires i <= k <= |segs|
    requires forall j :: i <= j < k ==> segs[j].exported == Done
    requires k == |segs| || segs[k].exported.Failed?
    ensures Reached(segs, i) == k
    decreases k - i
  {
    if i < k {
      ReachedAt(segs, i + 1, k);
    }
  }

  /** Every segment before the first failed export was exported. */
  lemma {:induction false} ReachedDone(segs: seq<SegmentIO>, i: nat)
    requires i <= |segs|
    ensures forall j :: i <= j < Reached(segs, i) ==> segs[j].exported == Done
    decreases |segs| - i
  {
    if i < |segs| && segs[i].exported.Done? {
      ReachedDone(segs, i + 1);
    }
  }

  lemma PrefixOfSnoc<T>(a: seq<T>, x: T, j: nat)
    requires j <= |a|
    ensures (a + [x])[..j] == a[..j]
  {
  }

  /** Handling later segments never changes what the earlier ones produced. */
  lemma {:induction false} ProcessedPrefix(segs: seq<SegmentIO>, answers: seq<Recognition>, j: nat, k: nat)
    requires j <= k <= |segs| == |answers|
    ensures Processed(segs, answers, k).texts[..j] == Processed(segs, answers, j).texts
    decreases k
  {
    if j < k {
      ProcessedPrefix(segs, answers, j, k - 1);
      ProcessedStep(segs, answers, k - 1);
      PrefixOfSnoc(Processed(segs, answers, k - 1).texts,
                   SegmentText(k, segs[k - 1].read, answers[Reads(segs, k - 1)]), j);
    }
  }

  /** Segment `j`'s text depends on its own read and on the answer to its own request alone. */
  lemma ProcessedText(segs: seq<SegmentIO>, answers: seq<Recognition>, k: nat, j: nat)
    requires j < k <= |segs| == |answers|
    ensures Processed(segs, answers, k).texts[j] == SegmentText(j + 1, segs[j].read, answers[Reads(segs, j)])
  {
    ProcessedPrefix(segs, answers, j + 1, k);
    ProcessedStep(segs, answers, j);
    var t := Processed(segs, answers, k).texts;
    assert t[j] == t[..j + 1][j];
  }

  /**
    Every segment the loop reaches yields exactly one text, whatever happened
    to its neighbours: when no export fails there is one text per segment;
    otherwise the loop stops at the first failed export, which gives the
    run's message. Segment `j`'s text depends only on its own read and on the
    answer to its own request, and a failed read gives that segment's error
    marker; the requests are one per successful read.
  */
  lemma SegmentsAreIsolated(segs: seq<SegmentIO>, answers: seq<Recognition>)
    requires |segs| == |answers|
    ensures var run := Run(segs, answers);
      && |run.texts| <= |segs|
      && (run.aborted.None? <==> |run.texts| == |segs|)
      && (run.aborted.Some? ==> segs[|run.texts|].exported.Failed? && segs[|run.texts|].exported.detail == run.aborted.value)
      && (forall j :: 0 <= j < |run.texts| ==> segs[j].exported == Done)
      && (forall j :: 0 <= j < |run.texts| ==>
            run.texts[j] == SegmentText(j + 1, segs[j].read, answers[Reads(segs, j)]))
      && (forall j :: 0 <= j < |run.texts| && segs[j].read.ReadFailed? ==> run.texts[j] == SegmentErrorMarker(j + 1))
      && |run.requests| == Reads(segs, |run.texts|)
  {
    var k := Reached(segs, 0);
    ReachedDone(segs, 0);
    forall j | 0 <= j < k
      ensures Processed(segs, answers, k).texts[j] == SegmentText(j + 1, segs[j].read, answers[Reads(segs, j)])
    {
      ProcessedText(segs, answers, k, j);
    }
  }

  lemma FailureMarkerIsBracketed(detail: string)
    ensures StartsWith(SegmentedFailureMarker(detail), "[")
  {
  }

  lemma StitchIsBracketed(texts: seq<string>)
    requires texts != []
    ensures StartsWith(Stitch(texts), "[")
  {
    StitchOpensWithFirstHeader(texts);
    StartsWithShorter(Stitch(texts), "[Segmento 1]\n", "[");
  }

  /** A loop over at least one segment returns a text that opens with `[`: a segment header, or the failure marker. */
  lemma RunIsBracketed(segs: seq<SegmentIO>, answers: seq<Recognition>)
    requires 1 <= |segs| == |answers|
    ensures StartsWith(SegmentedText(Run(segs, answers)), "[")
  {
    var run := Run(segs, answers);
    if run.aborted.None? {
      StitchIsBracketed(run.texts);
    } else {
      FailureMarkerIsBracketed(run.aborted.value);
    }
  }

  /** The segmented path's result always opens with `[`. */
  lemma SegmentedTextIsBracketed(durationMs: nat, io: Window -> SegmentIO, answer: nat -> Recognition, n0: nat)
    requires IsLong(durationMs)
    ensures StartsWith(SegmentedText(Segmented(durationMs, io, answer, n0)), "[")
  {
    var windows := Cut(durationMs);
    LongAudioHasSeveralWindows(durationMs);
    RunIsBracketed(Outcomes(io, windows), Upcoming(answer, n0, |windows|));
  }

  /**
    One pass of the segment loop after a successful export of segment `idx`
    (0-based) to `path`: the clip is read back and sent to the recogniser once
    under a 45 s socket timeout; any exception while reading or recognising
    gives the segment's error marker. The `finally` clause deletes the
    temporary file and puts the previous socket timeout back.
  */
  method TranscribeSegment(host: Host, service: SpeechService, idx: nat, path: string, read: ReadOutcome,
                           ghost answers: seq<Recognition>, ghost n0: nat, ghost made: nat)
    returns (t: string)
    requires made < |answers| && answers == Upcoming(service.answer, n0, |answers|)
    requires |service.requests| == n0 + made
    modifies host, service`requests
    ensures t == SegmentText(idx + 1, read, answers[made])
    ensures service.requests == old(service.requests) + SegmentRequests(read)
    ensures host.tempFiles == old(host.tempFiles) - {path}
    ensures host.defaultTimeout == old(host.defaultTimeout)
  {
    UpcomingAt(service.answer, n0, |answers|, made);
    host.tempFiles := host.tempFiles + {path};
    match read {
      case ReadFailed(_) =>
        t := SegmentErrorMarker(idx + 1);
      case Read(data) =>
        var original := host.defaultTimeout;
        host.defaultTimeout := SegmentTimeout;
        var r := service.Recognize(data, host);
        match r {
          case Heard(s) =>
            host.defaultTimeout := original;
            StripEmptyIffAllSpace(s);
            t := if Strip(s) == "" then SilentSegmentMarker else s;
          case _ =>
            t := SegmentErrorMarker(idx + 1);
        }
        host.defaultTimeout := original;
    }
    host.tempFiles := host.tempFiles - {path};
  }

  /**
    One pass of the segment loop, seen from the loop: given the texts and
    requests of the first `idx` segments, the pass over segment `idx` (whose
    export succeeded) yields those of the first `idx + 1`, and deletes that
    segment's temporary file.
  */
  method AppendSegment(host: Host, service: SpeechService, idx: nat, segment: SegmentIO, texts: seq<string>,
                       ghost segs: seq<SegmentIO>, ghost answers: seq<Recognition>,
                       ghost before: seq<Request>, ghost files: set<string>)
    returns (next: seq<string>)
    requires idx < |segs| == |answers| && segs[idx] == segment
    requires answers == Upcoming(service.answer, |before|, |answers|)
    requires texts == Processed(segs, answers, idx).texts
    requires service.requests == before + Processed(segs, answers, idx).requests
    requires host.tempFiles == files - SegmentTempNames(segs, idx)
    modifies host, service`requests
    ensures next == Processed(segs, answers, idx + 1).texts
    ensures service.requests == before + Processed(segs, answers, idx + 1).requests
    ensures host.tempFiles == files - SegmentTempNames(segs, idx + 1)
    ensures host.defaultTimeout == old(host.defaultTimeout)
  {
    ghost var p := Processed(segs, answers, idx);
    ProcessedStep(segs, answers, idx);
    var t := TranscribeSegment(host, service, idx, SegmentTempName(idx, segment.stamp), segment.read,
                               answers, |before|, Reads(segs, idx));
    AppendAssoc(before, p.requests, SegmentRequests(segment.read));
    next := texts + [t];
  }

  /**
    The segment loop over the windows already cut: each segment is converted
    and exported to its temporary WAV and transcribed in turn; an export
    failure escapes to the outer handler and ends the loop with the failure
    marker, otherwise the texts are stitched.
  */
  method TranscribeSegments(host: Host, service: SpeechService, segments: seq<Window>, io: Window -> SegmentIO)
    returns (text: string)
    modifies host, service`requests
    ensures var run := Run(Outcomes(io, segments), Upcoming(service.answer, |old(service.requests)|, |segments|));
      && text == SegmentedText(run)
      && service.requests == old(service.requests) + run.requests
      && |run.texts| <= |segments|
      && host.tempFiles == (old(host.tempFiles) - SegmentTempNames(Outcomes(io, segments), |run.texts|))
                           + Leftover(Outcomes(io, segments), |run.texts|)
    ensures host.defaultTimeout == old(host.defaultTimeout)
  {
    ghost var segs := Outcomes(io, segments);
    ghost var answers := Upcoming(service.answer, |service.requests|, |segments|);
    var transcriptions: seq<string> := [];
    var idx := 0;
    while idx < |segments|
      invariant idx <= |segments|
      invariant Reached(segs, idx) == Reached(segs, 0)
      invariant transcriptions == Processed(segs, answers, idx).texts
      invariant service.requests == old(service.requests) + Processed(segs, answers, idx).requests
      invariant host.tempFiles == old(host.tempFiles) - SegmentTempNames(segs, idx)
      invariant host.defaultTimeout == old(host.defaultTimeout)
      decreases |segments| - idx
    {
      var segment := io(segments[idx]);
      assert segment == segs[idx];
      if segment.exported.Failed? {
        RunEndsAt(segs, answers, idx);
        if segment.exported.leftFile {
          host.tempFiles := host.tempFiles + {SegmentTempName(idx, segment.stamp)};
        }
        return SegmentedFailureMarker(segment.exported.detail);
      }
      transcriptions := AppendSegment(host, service, idx, segment, transcriptions,
                                      segs, answers, old(service.requests), old(host.tempFiles));
      idx := idx + 1;
    }
    RunEndsAt(segs, answers, idx);
    text := Stitch(transcriptions);
  }

  /**
    The segmented path (`transcribe_long_audio_in_segments`): the windows are
    cut and the segment loop runs over them. The recogniser sees exactly the
    requests of the specification run, every temporary file made is deleted
    except one a failed export left behind, and the socket timeout is as
    before.
  */
  method TranscribeLongAudio(host: Host, service: SpeechService, durationMs: nat, io: Window -> SegmentIO)
    returns (text: string)
    modifies host, service`requests
    ensures var run, windows := Segmented(durationMs, io, service.answer, |old(service.requests)|), Cut(durationMs);
      && text == SegmentedText(run)
      && service.requests == old(service.requests) + run.requests
      && |run.texts| <= |windows|
      && host.tempFiles == (old(host.tempFiles) - SegmentTempNames(Outcomes(io, windows), |run.texts|))
                           + Leftover(Outcomes(io, windows), |run.texts|)
    ensures host.defaultTimeout == old(host.defaultTimeout)
  {
    var segments := CutWindows(durationMs);
    SegmentedIsRun(durationMs, io, service.answer, |service.requests|, segments);
    text := TranscribeSegments(host, service, segments, io);
  }
}
