/**
  The recognition policy of `transcribe_audio_with_speech_recognition` for
  audio short enough to be sent whole: the three-level read fallback and the
  retry loop around the recogniser, which only repeats a request that timed
  out and puts the socket default timeout back after every attempt.
*/
module Recognition {
  import opened Text
  import opened Services

  /** Files smaller than this many bytes are rejected before any decoding. */
  const MinFileBytes: nat := 1000

  /** Total number of requests the retry loop may make. */
  const MaxAttempts: nat := 3

  /** The socket default timeout set around each request of the retry loop. */
  const RecognitionTimeout: Deadline := Seconds(60)

  const NotFoundMarker := Bracket("Erro: Arquivo de áudio não encontrado")
  const TooSmallMarker := Bracket("Erro: Arquivo de áudio muito pequeno ou vazio")
  const EmptyAudioMarker := Bracket("Áudio vazio ou muito baixo")
  const TimeoutMarker := Bracket("Erro: Timeout na transcrição. O arquivo pode ser muito longo ou a conexão está lenta. Tente dividir o áudio em partes menores.")
  const NotUnderstoodMarker := Bracket("Áudio não pôde ser compreendido - verifique a qualidade do áudio e tente falar mais claramente")

  const UnreadablePrefix :=
    "Erro: Não foi possível processar o arquivo de áudio. O formato pode não ser suportado. "
    + "Detalhes: "

  function UnreadableMarker(detail: string): string {
    Bracket(UnreadablePrefix + detail)
  }

  function ServiceErrorMarker(detail: string): string {
    Bracket("Erro no serviço de reconhecimento: " + detail)
  }

  /** The outer `except Exception` of the whole-file transcription. */
  function GeneralErrorMarker(detail: string): string {
    Bracket("Erro na transcrição: " + detail)
  }

  /** How the retry loop is left: a text returned to the caller, or an exception that escapes it. */
  datatype Exit = Returned(text: string) | Raised(detail: string)

  /** One run of the retry loop: how it was left and how many requests it made. */
  datatype RetryRun = RetryRun(exit: Exit, calls: nat)

  /**
    What one attempt does with the recogniser's answer: `Some` leaves the
    loop, `None` (a timeout before the last attempt) tries again. The last
    attempt always leaves the loop.
  */
  function AttemptExit(r: Recognition, last: bool): (e: Option<Exit>)
    ensures e.None? <==> (r.TimedOut? && !last)
  {
    match r
    case Heard(text) => Some(Returned(if AllSpace(text) then EmptyAudioMarker else text))
    case TimedOut => if last then Some(Returned(TimeoutMarker)) else None
    case NotUnderstood => Some(Returned(NotUnderstoodMarker))
    case RequestFailed(detail) => Some(Returned(ServiceErrorMarker(detail)))
    case Crashed(detail) => Some(Raised(detail))
  }

  /** The retry loop from attempt `k` on, the `j`-th request being answered `answers[j]`. */
  function RetryFrom(answers: seq<Recognition>, k: nat): RetryRun
    requires k < MaxAttempts == |answers|
    decreases MaxAttempts - k
  {
    match AttemptExit(answers[k], k == MaxAttempts - 1)
    case Some(e) => RetryRun(e, k + 1)
    case None => RetryFrom(answers, k + 1)
  }

  /** The whole retry loop. */
  function Retry(answers: seq<Recognition>): RetryRun
    requires |answers| == MaxAttempts
  {
    RetryFrom(answers, 0)
  }

  lemma {:induction false} RetryFromShape(answers: seq<Recognition>, k: nat)
    requires k < MaxAttempts == |answers|
    requires forall j :: 0 <= j < k ==> answers[j] == TimedOut
    ensures var run := RetryFrom(answers, k);
      && k < run.calls <= MaxAttempts
      && (forall j :: 0 <= j < run.calls - 1 ==> answers[j] == TimedOut)
      && AttemptExit(answers[run.calls - 1], run.calls == MaxAttempts) == Some(run.exit)
    decreases MaxAttempts - k
  {
    if AttemptExit(answers[k], k == MaxAttempts - 1).None? {
      RetryFromShape(answers, k + 1);
    }
  }

  /**
    The loop makes one to three requests; every request but the last was
    answered with a timeout (only a timeout leads to another attempt), and the
    answer to the last request decides how the loop is left.
  */
  lemma RetryShape(answers: seq<Recognition>)
    requires |answers| == MaxAttempts
    ensures var run := Retry(answers);
      && 1 <= run.calls <= MaxAttempts
      && (forall j :: 0 <= j < run.calls - 1 ==> answers[j] == TimedOut)
      && (run.calls < MaxAttempts ==> answers[run.calls - 1] != TimedOut)
      && AttemptExit(answers[run.calls - 1], run.calls == MaxAttempts) == Some(run.exit)
  {
    RetryFromShape(answers, 0);
  }

  /** Three timeouts in a row end the loop with the timeout marker after exactly three requests. */
  lemma ThreeTimeouts(answers: seq<Recognition>)
    requires answers == [TimedOut, TimedOut, TimedOut]
    ensures Retry(answers) == RetryRun(Returned(TimeoutMarker), 3)
  {
    RetryShape(answers);
  }

  /**
    An answer that is not a timeout, after only timeouts, ends the loop at once:
    "not understood" and a request error give their markers and are never retried.
  */
  lemma StopsAtFirstNonTimeout(answers: seq<Recognition>, k: nat)
    requires |answers| == MaxAttempts
    requires k < MaxAttempts && answers[k] != TimedOut
    requires forall j :: 0 <= j < k ==> answers[j] == TimedOut
    ensures Retry(answers) == RetryRun(AttemptExit(answers[k], k == MaxAttempts - 1).value, k + 1)
    ensures answers[k] == NotUnderstood ==> Retry(answers).exit == Returned(NotUnderstoodMarker)
    ensures answers[k].RequestFailed? ==> Retry(answers).exit == Returned(ServiceErrorMarker(answers[k].detail))
    ensures answers[k].Crashed? ==> Retry(answers).exit == Raised(answers[k].detail)
  {
    RetryShape(answers);
  }

  /**
    A recognised text is returned as it is, unless it is empty or whitespace
    only, in which case the "empty or too quiet" marker is returned.
  */
  lemma HeardText(answers: seq<Recognition>, text: string)
    requires |answers| == MaxAttempts && answers[0] == Heard(text)
    ensures Retry(answers).calls == 1
    ensures Retry(answers).exit == Returned(if AllSpace(text) then EmptyAudioMarker else text)
  {
  }

  /**
    One attempt of the retry loop: the socket default timeout is set to 60 s
    for the request and put back afterwards, whatever the answer (the success
    path restores it explicitly, the `finally` clause on every other exit).
  */
  method Attempt(host: Host, service: SpeechService, data: AudioData) returns (r: Recognition)
    modifies host`defaultTimeout, service`requests
    ensures host.defaultTimeout == old(host.defaultTimeout)
    ensures service.requests == old(service.requests) + [Request(data, RecognitionTimeout)]
    ensures r == service.answer(|old(service.requests)|)
  {
    var original := host.defaultTimeout;
    host.defaultTimeout := RecognitionTimeout;
    r := service.Recognize(data, host);
    host.defaultTimeout := original;
  }

  /**
    The retry loop (`for attempt in range(max_retries)`): each attempt makes
    one request under the 60 s socket timeout; only a timeout before the third
    attempt leads to another attempt (the two-second pause between attempts
    is not modelled).
  */
  method RecognizeWithRetry(host: Host, service: SpeechService, data: AudioData) returns (exit: Exit)
    modifies host`defaultTimeout, service`requests
    ensures host.defaultTimeout == old(host.defaultTimeout)
    ensures exit == Retry(Upcoming(service.answer, |old(service.requests)|, MaxAttempts)).exit
    ensures service.requests == old(service.requests)
              + Repeat(Request(data, RecognitionTimeout), Retry(Upcoming(service.answer, |old(service.requests)|, MaxAttempts)).calls)
  {
    ghost var n0 := |service.requests|;
    ghost var answers := Upcoming(service.answer, n0, MaxAttempts);
    var attempt: nat := 0;
    while attempt < MaxAttempts
      invariant attempt <= MaxAttempts
      invariant host.defaultTimeout == old(host.defaultTimeout)
      invariant service.requests == old(service.requests) + Repeat(Request(data, RecognitionTimeout), attempt)
      invariant forall j :: 0 <= j < attempt ==> answers[j] == TimedOut
      decreases MaxAttempts - attempt
    {
      assert |service.requests| == n0 + attempt;
      var r := Attempt(host, service, data);
      assert r == answers[attempt];
      AppendAssoc(old(service.requests), Repeat(Request(data, RecognitionTimeout), attempt), [Request(data, RecognitionTimeout)]);
      assert service.requests == old(service.requests) + Repeat(Request(data, RecognitionTimeout), attempt + 1);
      if !r.TimedOut? {
        StopsAtFirstNonTimeout(answers, attempt);
      }
      match r {
        case Heard(text) =>
          StripEmptyIffAllSpace(text);
          return Returned(if Strip(text) == "" then EmptyAudioMarker else text);
        case NotUnderstood =>
          return Returned(NotUnderstoodMarker);
        case RequestFailed(detail) =>
          return Returned(ServiceErrorMarker(detail));
        case Crashed(detail) =>
          return Raised(detail);
        case TimedOut =>
      }
      attempt := attempt + 1;
    }
    // The third timeout in a row.
    ThreeTimeouts(answers);
    exit := Returned(TimeoutMarker);
  }

  /** `n` copies of `x`. */
  function Repeat<T>(x: T, n: nat): (s: seq<T>)
    ensures |s| == n && forall i :: 0 <= i < n ==> s[i] == x
  {
    if n == 0 then [] else Repeat(x, n - 1) + [x]
  }

  /** Which of the three ways of reading the recording produced the audio sent to the recogniser. */
  datatype Level = ConvertedWithCalibration | OriginalWithCalibration | OriginalWithoutCalibration

  datatype Chosen = Chosen(level: Level, data: AudioData)

  /**
    The read fallback: the converted temporary WAV read with noise
    calibration, else the original file with calibration, else the original
    without calibration; if all three fail, the last failure's message.
  */
  function ReadFallback(converted: ReadOutcome, original: ReadOutcome, raw: ReadOutcome): (r: Result<Chosen, string>)
    ensures r.Failure? <==> converted.ReadFailed? && original.ReadFailed? && raw.ReadFailed?
    ensures r.Failure? ==> r.error == raw.detail
  {
    match converted
    case Read(d) => Success(Chosen(ConvertedWithCalibration, d))
    case ReadFailed(_) =>
      match original
      case Read(d) => Success(Chosen(OriginalWithCalibration, d))
      case ReadFailed(_) =>
        match raw
        case Read(d) => Success(Chosen(OriginalWithoutCalibration, d))
        case ReadFailed(detail) => Failure(detail)
  }

  /** The reads in the order they are tried, each with the level it stands for. */
  function Levels(): seq<Level> {
    [ConvertedWithCalibration, OriginalWithCalibration, OriginalWithoutCalibration]
  }

  /**
    The fallback uses the first read that succeeds, in the order converted,
    original with calibration, original without calibration, and the audio
    that read produced; no later read is consulted.
  */
  lemma ReadFallbackFirstSuccess(tries: seq<ReadOutcome>, i: nat)
    requires |tries| == 3 && i < 3 && tries[i].Read?
    requires forall j :: 0 <= j < i ==> tries[j].ReadFailed?
    ensures ReadFallback(tries[0], tries[1], tries[2]) == Success(Chosen(Levels()[i], tries[i].data))
  {
  }
}
