/**
  The two uses of the generative model. `improve_transcription_with_gemini`
  rewrites a transcription, but leaves it as it is when no model is
  configured, when it is empty, when it is a bracketed marker, and when the
  model fails. `generate_summary` builds a prompt from an optional custom
  instruction and the transcription; there a missing model or a failing
  model is reported as an error, never answered with the transcription.
*/
module Refinement {
  import opened Text
  import opened Services
  import opened Recognition
  import opened Pipeline
  import opened Naming

  /** One answer of the generative model: the response's text, or the exception's message. */
  datatype Generation = Generated(text: string) | GenerationFailed(detail: string)

  // ---------------------------------------------------------------- improving a transcription

  const ImproveHead :=
    "\nVocê é um assistente especializado em melhorar transcrições médicas. \n"
    + "Sua tarefa é corrigir e melhorar a seguinte transcrição de uma consulta médica:\n\n"
    + "Transcrição original:\n"
  const ImproveTail :=
    "\n\nPor favor:\n1. Corrija erros de gramática e ortografia\n"
    + "2. Melhore a pontuação e formatação\n3. Organize o texto de forma clara e profissional\n"
    + "4. Mantenha todos os termos médicos e informações importantes\n"
    + "5. Se possível, estruture em seções (ex: Queixa principal, Histórico, Exame físico, etc.)\n"
    + "\nRetorne apenas o texto melhorado, sem comentários adicionais:\n"

  /** The request `improve_transcription_with_gemini` sends: instructions around the transcription. */
  function ImprovePrompt(raw: string): string {
    ImproveHead + raw + ImproveTail
  }

  /** The request carries the transcription verbatim. */
  lemma ImprovePromptCarriesText(raw: string)
    ensures Contains(ImprovePrompt(raw), raw)
  {
    ContainsInfix(ImproveHead, raw, ImproveTail);
  }

  /** Whether a transcription is sent to the model: a model is configured, the text is not empty and not a marker. */
  predicate Refinable(configured: bool, raw: string) {
    configured && raw != [] && !StartsWith(raw, "[")
  }

  /**
    `improve_transcription_with_gemini(raw)`: the model's text, stripped, for
    a refinable transcription whose request succeeds; the transcription
    itself otherwise.
  */
  function Improve(configured: bool, generate: string -> Generation, raw: string): (r: string)
    ensures r == raw || Trimmed(r)
  {
    if !configured || raw == [] || StartsWith(raw, "[") then raw
    else
      match generate(ImprovePrompt(raw))
      case Generated(text) => Strip(text)
      case GenerationFailed(_) => raw
  }

  /** Without a model, for an empty text and for a marker the transcription is returned unchanged, whatever the model would say. */
  lemma ImproveKeepsUnrefinable(configured: bool, generate: string -> Generation, raw: string)
    requires !Refinable(configured, raw)
    ensures Improve(configured, generate, raw) == raw
  {
  }

  /** A failing request leaves the transcription unchanged. */
  lemma ImproveKeepsOnFailure(configured: bool, generate: string -> Generation, raw: string)
    requires generate(ImprovePrompt(raw)).GenerationFailed?
    ensures Improve(configured, generate, raw) == raw
  {
  }

  /**
    A transcription changes only when it was refinable and the model
    answered, and then it becomes the model's answer without surrounding
    whitespace.
  */
  lemma ImproveChanges(configured: bool, generate: string -> Generation, raw: string)
    requires Improve(configured, generate, raw) != raw
    ensures Refinable(configured, raw)
    ensures generate(ImprovePrompt(raw)).Generated?
    ensures Improve(configured, generate, raw) == Strip(generate(ImprovePrompt(raw)).text)
    ensures Trimmed(Improve(configured, generate, raw))
  {
  }

  /**
    A refinable transcription whose request succeeds becomes the model's
    answer without surrounding whitespace.
  */
  lemma ImproveRefines(configured: bool, generate: string -> Generation, raw: string)
    requires Refinable(configured, raw) && generate(ImprovePrompt(raw)).Generated?
    ensures Improve(configured, generate, raw) == Strip(generate(ImprovePrompt(raw)).text)
    ensures Trimmed(Improve(configured, generate, raw))
  {
  }

  /**
    The transcription route tests `model and not transcription.startswith('[')`
    before calling `improve_transcription_with_gemini`, which tests the same
    again: the route's test changes nothing.
  */
  function RouteRefine(configured: bool, generate: string -> Generation, text: string): string {
    if configured && !StartsWith(text, "[") then Improve(configured, generate, text) else text
  }

  lemma RouteGuardRedundant(configured: bool, generate: string -> Generation, text: string)
    ensures RouteRefine(configured, generate, text) == Improve(configured, generate, text)
  {
  }

  /**
    What the retry loop returns is a marker, or the text of the answer that
    ended it, which then is not blank.
  */
  lemma ExitTextIsMarkerOrSpeech(answers: seq<Services.Recognition>)
    requires |answers| == MaxAttempts
    ensures var run := Retry(answers); var t := ExitText(run.exit);
      StartsWith(t, "[") || (answers[run.calls - 1] == Heard(t) && !AllSpace(t))
  {
    var run := Retry(answers);
    RetryShape(answers);
    var last := answers[run.calls - 1];
  }

  /**
    A transcription is either a bracketed marker or speech the recogniser
    heard on the whole-file path: a missing, tiny, unreadable or long
    recording always yields a marker or a segmented transcript.
  */
  lemma TranscriptIsMarkerOrSpeech(f: AudioFile, answer: nat -> Services.Recognition, n0: nat)
    ensures var t := Transcribe(f, answer, n0).text;
      || StartsWith(t, "[")
      || (&& f.present && f.size >= MinFileBytes && !GoesLong(f) && WholeRead(f).Success?
          && var answers := Upcoming(answer, n0, MaxAttempts);
             answers[Retry(answers).calls - 1] == Heard(t) && !AllSpace(t))
  {
    if f.present && f.size >= MinFileBytes {
      if GoesLong(f) {
        LongIsSegmented(f, answer, n0);
      } else if WholeRead(f).Success? {
        assert Transcribe(f, answer, n0) == Whole(f, answer, n0);
        ExitTextIsMarkerOrSpeech(Upcoming(answer, n0, MaxAttempts));
      }
    }
  }

  /**
    Only speech heard on the whole-file path is ever rewritten by the model:
    markers, and in particular every segmented transcript of a long
    recording, are kept as they are.
  */
  lemma RefinedOnlyHeardSpeech(f: AudioFile, answer: nat -> Services.Recognition, n0: nat,
                               configured: bool, generate: string -> Generation)
    requires var t := Transcribe(f, answer, n0).text; Improve(configured, generate, t) != t
    ensures f.present && f.size >= MinFileBytes && !GoesLong(f) && WholeRead(f).Success?
    ensures var answers := Upcoming(answer, n0, MaxAttempts);
      answers[Retry(answers).calls - 1] == Heard(Transcribe(f, answer, n0).text)
  {
    TranscriptIsMarkerOrSpeech(f, answer, n0);
  }

  /** A long recording's segmented transcript is never sent to the model. */
  lemma LongTranscriptNotRefined(f: AudioFile, answer: nat -> Services.Recognition, n0: nat,
                                 configured: bool, generate: string -> Generation)
    requires f.present && f.size >= MinFileBytes && GoesLong(f)
    ensures var t := Transcribe(f, answer, n0).text; Improve(configured, generate, t) == t
  {
    LongIsSegmented(f, answer, n0);
  }

  // ---------------------------------------------------------------- summaries

  const CustomHead :=
    "\nVocê é um assistente médico especializado em criar resumos de consultas médicas.\n"
    + "Analise a seguinte transcrição seguindo as instruções específicas do usuário:\n\n"
    + "INSTRUÇÕES DO USUÁRIO:\n"
  const CustomMiddle := "\n\nTranscrição:\n"
  const CustomTail :=
    "\n\n"
    + "Por favor, crie um resumo seguindo exatamente as instruções fornecidas pelo usuário "
    + "acima.\nMantenha o resumo profissional e focado nos aspectos médicos mais importantes.\n"
  const DefaultHead :=
    "\nVocê é um assistente médico especializado em criar resumos de consultas médicas.\n"
    + "Analise a seguinte transcrição e crie um resumo estruturado e profissional:\n\nTranscrição:\n"
  const DefaultTail :=
    "\n\nPor favor, crie um resumo seguindo esta estrutura:\n\n## RESUMO DA CONSULTA\n\n"
    + "**Data:** [Extrair se mencionada ou indicar como não especificada]\n"
    + "**Paciente:** [Nome se mencionado ou \"Não especificado\"]\n\n### \U{1F50D} QUEIXA PRINCIPAL\n"
    + "[Motivo principal da consulta]\n\n### \U{1F4CB} HISTÓRICO\n[Histórico relevante mencionado]\n\n"
    + "### \U{1FA7A} EXAME FÍSICO\n[Achados do exame físico se mencionados]\n\n### \U{1F48A} CONDUTA/TRATAMENTO\n"
    + "[Medicações, orientações ou tratamentos prescritos]\n\n### \U{1F4DD} OBSERVAÇÕES IMPORTANTES\n"
    + "[Pontos relevantes adicionais]\n\n### \U{1F504} RETORNO\n[Orientações sobre retorno se mencionadas]\n\n"
    + "Mantenha o resumo conciso, profissional e focado nos aspectos médicos mais importantes.\n"

  /** The fixed prompt with its eight-part structure, around the transcription. */
  function DefaultPrompt(transcription: string): string {
    DefaultHead + transcription + DefaultTail
  }

  /** The prompt of `generate_summary` for a custom instruction already stripped, and the transcription. */
  function SummaryPrompt(custom: string, transcription: string): string {
    if custom != [] then CustomHead + custom + CustomMiddle + transcription + CustomTail
    else DefaultPrompt(transcription)
  }

  /**
    A non-empty instruction is embedded verbatim together with the
    transcription; an empty one gives the default prompt, which carries the
    transcription too.
  */
  lemma SummaryPromptCarries(custom: string, transcription: string)
    ensures Contains(SummaryPrompt(custom, transcription), transcription)
    ensures custom != [] ==> Contains(SummaryPrompt(custom, transcription), custom)
    ensures custom == [] ==> SummaryPrompt(custom, transcription) == DefaultPrompt(transcription)
  {
    if custom != [] {
      var rest := CustomMiddle + transcription + CustomTail;
      AppendAssoc(CustomHead + custom, CustomMiddle + transcription, CustomTail);
      AppendAssoc(CustomHead + custom, CustomMiddle, transcription);
      ContainsInfix(CustomHead + custom + CustomMiddle, transcription, CustomTail);
      assert CustomHead + custom + rest == SummaryPrompt(custom, transcription) by {
        AppendAssoc(CustomHead + custom, CustomMiddle + transcription, CustomTail);
        AppendAssoc(CustomHead, custom, rest);
        AppendAssoc(CustomMiddle, transcription, CustomTail);
      }
      ContainsInfix(CustomHead, custom, rest);
    } else {
      ContainsInfix(DefaultHead, transcription, DefaultTail);
    }
  }

  /** How `generate_summary` answers. */
  datatype SummaryReply =
    | SummaryDenied
    | SummaryMissing
    | NoModel
    | SummaryFailed(detail: string)
    | Summarized(summary: string, file: string, personalised: bool)

  /**
    `generate_summary` for the transcription file `filename` of `user`,
    whether it exists, its content, the request's `custom_prompt` field, and
    whether a model is configured. The summary is saved under the name the
    listing looks for (see `Naming.SummaryName`).
  */
  function GenerateSummary(user: string, filename: string, present: bool, content: string,
                           customField: string, configured: bool, generate: string -> Generation): SummaryReply
  {
    var custom := Strip(customField);
    if !Owns(user, filename) then SummaryDenied
    else if !present then SummaryMissing
    else if !configured then NoModel
    else
      match generate(SummaryPrompt(custom, content))
      case GenerationFailed(detail) => SummaryFailed(detail)
      case Generated(text) => Summarized(text, SummaryName(filename), custom != [])
  }

  /**
    A summary is produced exactly when the file is the user's, exists, a
    model is configured and the model answers; it is then the model's text,
    saved under the summary name, marked personalised exactly when a
    non-blank instruction was given. A missing model and a failing model are
    errors: the transcription is never returned in place of a summary.
  */
  lemma SummarizedExactly(user: string, filename: string, present: bool, content: string,
                          customField: string, configured: bool, generate: string -> Generation)
    ensures var r := GenerateSummary(user, filename, present, content, customField, configured, generate);
      var reply := generate(SummaryPrompt(Strip(customField), content));
      && (r.Summarized? <==> Owns(user, filename) && present && configured && reply.Generated?)
      && (r.Summarized? ==> r.summary == reply.text && r.file == SummaryName(filename)
                            && (r.personalised <==> !AllSpace(customField)))
      && (Owns(user, filename) && present && !configured ==> r == NoModel)
      && (Owns(user, filename) && present && configured && reply.GenerationFailed? ==> r == SummaryFailed(reply.detail))
  {
    StripEmptyIffAllSpace(customField);
  }
}
