/**
  The collaborators the transcription pipeline calls but does not implement:
  the audio decoder and WAV exporter (pydub), the audio-file reader and the
  speech recogniser (speech_recognition), the process-wide socket timeout and
  the temporary directory. Each is reduced to the outcomes the pipeline reacts
  to; the recogniser is an oracle that answers its n-th request.
*/
module Services {

  datatype Option<T> = None | Some(value: T)

  datatype Result<T, E> = Success(value: T) | Failure(error: E)

  /** The process-wide socket default timeout: Python's `None` or a number of seconds. */
  datatype Deadline = NoDeadline | Seconds(seconds: nat)

  /** Audio as recorded from a file and handed to the recogniser; only its identity matters here. */
  datatype AudioData = AudioData(id: nat)

  /** Opening a WAV with `sr.AudioFile` and recording it: the audio, or the exception's message. */
  datatype ReadOutcome = Read(data: AudioData) | ReadFailed(detail: string)

  /**
    A conversion and export step of the codec: done, or the exception's
    message and whether a file was left at the target path (a failure in
    `export` may leave a partly written file, one before it leaves none).
  */
  datatype Step = Done | Failed(detail: string, leftFile: bool)

  /** `AudioSegment.from_file`: the decoded length `len(audio)` in milliseconds, or the exception's message. */
  datatype Decode = Decoded(durationMs: nat) | DecodeFailed(detail: string)

  /**
    One answer of `recognize_google`: a text, or one of the exceptions the
    pipeline tells apart (`socket.timeout`/`TimeoutError`,
    `sr.UnknownValueError`, `sr.RequestError`, any other exception).
  */
  datatype Recognition =
    | Heard(text: string)
    | TimedOut
    | NotUnderstood
    | RequestFailed(detail: string)
    | Crashed(detail: string)

  /** The answers the next `count` requests would get, the first being request number `n0`. */
  function Upcoming(answer: nat -> Recognition, n0: nat, count: nat): (answers: seq<Recognition>)
    ensures |answers| == count
    ensures forall j :: 0 <= j < count ==> answers[j] == answer(n0 + j)
  {
    if count == 0 then [] else Upcoming(answer, n0, count - 1) + [answer(n0 + count - 1)]
  }

  lemma UpcomingAt(answer: nat -> Recognition, n0: nat, count: nat, j: nat)
    requires j < count
    ensures Upcoming(answer, n0, count)[j] == answer(n0 + j)
  {
  }

  /** One request sent to the recogniser: the audio and the socket default timeout in force. */
  datatype Request = Request(data: AudioData, deadline: Deadline)

  /** The process state the pipeline changes: the socket default timeout and the files in the temp directory. */
  class Host {
    var defaultTimeout: Deadline
    var tempFiles: set<string>

    constructor (timeout: Deadline, files: set<string>)
      ensures defaultTimeout == timeout && tempFiles == files
    {
      defaultTimeout := timeout;
      tempFiles := files;
    }
  }

  /**
    The external speech-to-text service. `answer(n)` is what the n-th request
    ever made receives; `requests` logs every request in order.
  */
  class SpeechService {
    const answer: nat -> Recognition
    var requests: seq<Request>

    constructor (answer: nat -> Recognition)
      ensures this.answer == answer && requests == []
    {
      this.answer := answer;
      requests := [];
    }

    /** `recognizer.recognize_google(audio_data, language='pt-BR')`, under the host's current socket timeout. */
    method Recognize(data: AudioData, host: Host) returns (r: Recognition)
      modifies this`requests
      ensures requests == old(requests) + [Request(data, host.defaultTimeout)]
      ensures r == answer(|old(requests)|)
    {
      r := answer(|requests|);
      requests := requests + [Request(data, host.defaultTimeout)];
    }
  }
}
