/**
  `transcribe_audio_with_speech_recognition`: the whole-file transcription.
  A missing or tiny file is rejected; a decoded recording longer than a
  minute goes to the segmented path; any other is converted to a temporary
  WAV, read through the three-level fallback and sent to the retry loop.
*/
module Pipeline {
  import opened Text
  import opened Services
  import opened Segmenter
  import opened Recognition
  import opened LongAudio

  /**
    What the pipeline learns about one recording from the file system and the
    codec: whether it exists, its size in bytes, the decoder's result, the
    outcome of converting and exporting it to the temporary WAV, the
    timestamp in that file's name, the three reads of the fallback, and the
    export and read of each segment should it take the segmented path.
  */
  datatype AudioFile = AudioFile(
    present: bool,
    size: nat,
    decode: Decode,
    conversion: Step,
    stamp: string,
    converted: ReadOutcome,
    original: ReadOutcome,
    raw: ReadOutcome,
    segments: Window -> SegmentIO)

  /** `temp_audio_<stamp>.wav` in the temporary directory. */
  function TempAudioName(stamp: string): string {
    "temp_audio_" + stamp + ".wav"
  }

  /**
    The result of transcribing one file: the text returned, the requests sent
    to the recogniser, the temporary files created, and those of them still
    present afterwards.
  */
  datatype Transcript = Transcript(text: string, requests: seq<Request>, made: set<string>, kept: set<string>)

  /** The temporary directory after a transcription that started from `files`. */
  function TempFilesAfter(files: set<string>, o: Transcript): set<string> {
    (files - o.made) + o.kept
  }

  /**
    Whether a file is at the temporary WAV's path once the conversion is
    over: the recording was decoded, and the export succeeded or left a file
    behind when it failed.
  */
  predicate Written(f: AudioFile) {
    f.decode.Decoded? && (f.conversion.Done? || f.conversion.leftFile)
  }

  /** The first read of the fallback: reading the converted WAV, or the failure that prevented it. */
  function ConvertedRead(f: AudioFile): ReadOutcome {
    if !f.decode.Decoded? then ReadFailed(f.decode.detail)
    else if f.conversion.Failed? then ReadFailed(f.conversion.detail)
    else f.converted
  }

  /** Whether the recording takes the segmented path. */
  predicate GoesLong(f: AudioFile) {
    f.decode.Decoded? && IsLong(f.decode.durationMs)
  }

  /** The text the outer handler makes of the way the retry loop was left. */
  function ExitText(e: Exit): string {
    match e
    case Returned(text) => text
    case Raised(detail) => GeneralErrorMarker(detail)
  }

  /** The read fallback applied to this file. */
  function WholeRead(f: AudioFile): Result<Chosen, string> {
    ReadFallback(ConvertedRead(f), f.original, f.raw)
  }

  /** The temporary files the whole-file path creates. */
  function Made(f: AudioFile): set<string> {
    if Written(f) then {TempAudioName(f.stamp)} else {}
  }

  /**
    The temporary files the whole-file path leaves behind: the file written,
    unless it was exported and read back, the only case in which it is deleted.
  */
  function Kept(f: AudioFile): set<string> {
    if Written(f) && ConvertedRead(f).ReadFailed? then {TempAudioName(f.stamp)} else {}
  }

  /** The text and requests of the retry loop run on `data`. */
  function Recognized(data: AudioData, answer: nat -> Services.Recognition, n0: nat): (string, seq<Request>) {
    var run := Retry(Upcoming(answer, n0, MaxAttempts));
    (ExitText(run.exit), Repeat(Request(data, RecognitionTimeout), run.calls))
  }

  /** The whole-file path after the length test: conversion, read fallback, retry loop. */
  function Whole(f: AudioFile, answer: nat -> Services.Recognition, n0: nat): Transcript {
    match WholeRead(f)
    case Failure(detail) => Transcript(UnreadableMarker(detail), [], Made(f), Kept(f))
    case Success(chosen) =>
      var (text, requests) := Recognized(chosen.data, answer, n0);
      Transcript(text, requests, Made(f), Kept(f))
  }

  /** The segmented path for a long recording. */
  function Long(f: AudioFile, answer: nat -> Services.Recognition, n0: nat): Transcript
    requires GoesLong(f)
  {
    var run := Segmented(f.decode.durationMs, f.segments, answer, n0);
    var segs := Outcomes(f.segments, Cut(f.decode.durationMs));
    Transcript(SegmentedText(run), run.requests,
               SegmentTempNames(segs, |run.texts|) + Leftover(segs, |run.texts|), Leftover(segs, |run.texts|))
  }

  /** The transcription of one file, the first request being request number `n0`. */
  function Transcribe(f: AudioFile, answer: nat -> Services.Recognition, n0: nat): Transcript {
    if !f.present then Transcript(NotFoundMarker, [], {}, {})
    else if f.size < MinFileBytes then Transcript(TooSmallMarker, [], {}, {})
    else if GoesLong(f) then Long(f, answer, n0)
    else Whole(f, answer, n0)
  }

  /** A missing file or one under 1000 bytes is answered at once: nothing is read, created or sent. */
  lemma RejectedBeforeReading(f: AudioFile, answer: nat -> Services.Recognition, n0: nat)
    requires !f.present || f.size < MinFileBytes
    ensures var o := Transcribe(f, answer, n0);
      && o.requests == [] && o.made == {} && o.kept == {}
      && o.text == (if f.present then TooSmallMarker else NotFoundMarker)
  {
  }

  /**
    When none of the three reads succeeds, the file is reported unreadable
    with the last read's message, and the recogniser is never called.
  */
  lemma UnreadableMakesNoRequest(f: AudioFile, answer: nat -> Services.Recognition, n0: nat)
    requires f.present && f.size >= MinFileBytes && !GoesLong(f)
    requires ConvertedRead(f).ReadFailed? && f.original.ReadFailed? && f.raw.ReadFailed?
    ensures Transcribe(f, answer, n0).text == UnreadableMarker(f.raw.detail)
    ensures Transcribe(f, answer, n0).requests == []
  {
    assert Transcribe(f, answer, n0) == Whole(f, answer, n0);
  }

  /**
    On the whole-file path the recogniser is called one to three times,
    always with the audio of the first successful read and under the 60 s
    socket timeout; every call but the last timed out.
  */
  lemma WholeFileRequests(f: AudioFile, answer: nat -> Services.Recognition, n0: nat)
    requires f.present && f.size >= MinFileBytes && !GoesLong(f)
    requires ReadFallback(ConvertedRead(f), f.original, f.raw).Success?
    ensures var o, answers := Transcribe(f, answer, n0), Upcoming(answer, n0, MaxAttempts);
      && 1 <= |o.requests| <= MaxAttempts
      && (forall j :: 0 <= j < |o.requests| ==>
            o.requests[j] == Request(ReadFallback(ConvertedRead(f), f.original, f.raw).value.data, RecognitionTimeout))
      && (forall j :: 0 <= j < |o.requests| - 1 ==> answers[j] == TimedOut)
  {
    var answers := Upcoming(answer, n0, MaxAttempts);
    RetryShape(answers);
    var chosen := ReadFallback(ConvertedRead(f), f.original, f.raw).value;
    var o := Whole(f, answer, n0);
    assert o.requests == Repeat(Request(chosen.data, RecognitionTimeout), Retry(answers).calls);
    assert Transcribe(f, answer, n0) == o;
  }

  /**
    The temporary WAV is written when the export succeeds, and may be left
    by one that fails; it is deleted only when it was exported and read
    back. Otherwise it stays in the temporary directory, whatever happens
    afterwards.
  */
  lemma ConvertedFileCleanup(f: AudioFile, answer: nat -> Services.Recognition, n0: nat)
    requires f.present && f.size >= MinFileBytes && !GoesLong(f) && f.decode.Decoded?
    ensures var o, name := Transcribe(f, answer, n0), TempAudioName(f.stamp);
      && o.made == (if f.conversion.Done? || f.conversion.leftFile then {name} else {})
      && (name in o.kept <==> name in o.made && !(f.conversion.Done? && f.converted.Read?))
  {
    assert Transcribe(f, answer, n0) == Whole(f, answer, n0);
  }

  /**
    A long recording is answered by the segmented path, whose text opens with
    a bracket; a temporary file stays only when a segment's export failed.
  */
  lemma LongIsSegmented(f: AudioFile, answer: nat -> Services.Recognition, n0: nat)
    requires f.present && f.size >= MinFileBytes && GoesLong(f)
    ensures var o, run := Transcribe(f, answer, n0), Segmented(f.decode.durationMs, f.segments, answer, n0);
      && o.text == SegmentedText(run)
      && StartsWith(o.text, "[")
      && (o.kept != {} ==> run.aborted.Some?)
  {
    SegmentedTextIsBracketed(f.decode.durationMs, f.segments, answer, n0);
  }

  /**
    The reading half of the whole-file path: the converted WAV is written,
    read back with calibration and deleted; if anything in that chain fails
    the original is read with, then without, calibration. The converted WAV
    is deleted only after it was read back; a file left by a failed export
    stays.
  */
  method ReadAudio(host: Host, f: AudioFile) returns (r: Result<Chosen, string>)
    modifies host`tempFiles
    ensures r == WholeRead(f)
    ensures host.tempFiles == (old(host.tempFiles) - Made(f)) + Kept(f)
  {
    r := Failure("");
    if f.decode.Decoded? {
      var tempPath := TempAudioName(f.stamp);
      match f.conversion {
        case Failed(_, leftFile) =>
          if leftFile {
            host.tempFiles := host.tempFiles + {tempPath};
          }
        case Done =>
          host.tempFiles := host.tempFiles + {tempPath};
          if f.converted.Read? {
            r := Success(Chosen(ConvertedWithCalibration, f.converted.data));
            host.tempFiles := host.tempFiles - {tempPath};
          }
      }
    }
    if r.Failure? {
      if f.original.Read? {
        r := Success(Chosen(OriginalWithCalibration, f.original.data));
      } else if f.raw.Read? {
        r := Success(Chosen(OriginalWithoutCalibration, f.raw.data));
      } else {
        r := Failure(f.raw.detail);
      }
    }
  }

  /**
    The whole-file path after the length test: the audio read goes to the
    retry loop, and an exception escaping it becomes the general error
    marker; an unreadable file is reported without calling the recogniser.
  */
  method TranscribeWhole(host: Host, service: SpeechService, f: AudioFile) returns (text: string)
    modifies host, service`requests
    ensures var o := Whole(f, service.answer, |old(service.requests)|);
      && text == o.text
      && service.requests == old(service.requests) + o.requests
      && host.tempFiles == TempFilesAfter(old(host.tempFiles), o)
    ensures host.defaultTimeout == old(host.defaultTimeout)
  {
    ghost var n0 := |service.requests|;
    var read := ReadAudio(host, f);
    match read {
      case Failure(detail) =>
        WholeUnreadable(f, service.answer, n0);
        return UnreadableMarker(detail);
      case Success(chosen) =>
        var exit := RecognizeWithRetry(host, service, chosen.data);
        text := ExitText(exit);
        ghost var heard := Recognized(chosen.data, service.answer, n0);
        assert text == heard.0;
        assert service.requests == old(service.requests) + heard.1;
        WholeHeard(f, service.answer, n0, chosen);
    }
  }

  lemma WholeUnreadable(f: AudioFile, answer: nat -> Services.Recognition, n0: nat)
    requires WholeRead(f).Failure?
    ensures Whole(f, answer, n0) == Transcript(UnreadableMarker(WholeRead(f).error), [], Made(f), Kept(f))
  {
  }

  lemma WholeHeard(f: AudioFile, answer: nat -> Services.Recognition, n0: nat, chosen: Chosen)
    requires WholeRead(f) == Success(chosen)
    ensures var heard := Recognized(chosen.data, answer, n0);
      Whole(f, answer, n0) == Transcript(heard.0, heard.1, Made(f), Kept(f))
  {
  }

  /**
    The whole transcription of one file: existence and size are checked
    first, then the decoded length chooses between the segmented and the
    whole-file path. The socket timeout is as before on every exit.
  */
  method TranscribeFile(host: Host, service: SpeechService, f: AudioFile) returns (text: string)
    modifies host, service`requests
    ensures var o := Transcribe(f, service.answer, |old(service.requests)|);
      && text == o.text
      && service.requests == old(service.requests) + o.requests
      && host.tempFiles == TempFilesAfter(old(host.tempFiles), o)
    ensures host.defaultTimeout == old(host.defaultTimeout)
  {
    if !f.present {
      return NotFoundMarker;
    }
    if f.size < MinFileBytes {
      return TooSmallMarker;
    }
    if GoesLong(f) {
      text := TranscribeLongAudio(host, service, f.decode.durationMs, f.segments);
      return;
    }
    text := TranscribeWhole(host, service, f);
  }
}
