# Consulta audio-to-text core, modelled in Dafny

`app.py` is a Flask application for medical consultations. It records
audio, transcribes it with a speech recogniser, optionally has a
generative model rewrite or summarise the transcription, and exports
summaries as PDF or DOCX documents. This project models the decision logic
under the HTTP and disk glue, and proves properties of it. Every foreign
library is treated as an oracle.

The modules are:

- `Segmenter`: cuts a recording longer than 60 000 ms into
  `[i, min(i + 45000, D))` windows, in integer milliseconds.
- `Recognition`: the whole-file recognition policy. It has a three-level
  read fallback and a retry loop of at most three requests in which only a
  timeout is retried. The loop sets the process-wide socket timeout to 60 s
  around each request and puts it back afterwards.
- `Stitching`: the `"[Segmento k]\n" + text` blocks joined by blank lines.
- `LongAudio`: the segmented path. Each window is exported, read back and
  sent to the recogniser once under a 45 s timeout. A failed read or
  recognition becomes `[Erro no segmento k]`, a blank text becomes
  `[Segmento silencioso]`, and every segment's temporary file is deleted.
  A failed export sits outside the segment's `try`: it ends the loop, the
  whole path returns `[Erro na transcrição por segmentos: …]`, and the
  partial file it left stays behind.
- `Pipeline`: `transcribe_audio_with_speech_recognition` as a whole. The
  checks come first: existence, then the 1000-byte size gate, then the
  length test that routes a recording to the segmented or the whole-file
  path.
- `Markup`: the line classifiers of `create_pdf_from_text` and
  `create_docx_from_text`. Each turns the text into a sequence of typed
  blocks.
- `Refinement`: `improve_transcription_with_gemini`, and the prompt
  selection and error policy of `generate_summary`.
- `Naming`, `Accounts` and `Listing`: the string rules. These are
  `sanitize_filename`, recording, transcription and summary names, patient
  names, the preview, the ownership test, registration checks and
  `get_recordings`' session grouping.
- `Text`: string helpers, such as Python's `strip`, `split`, `join`,
  `replace` and `startswith`.

The state the code changes in place is modelled as classes with
`modifies` frames:

- `Services.Host` holds the socket default timeout and the set of
  temporary files.
- `Services.SpeechService` holds the log of requests. Its oracle
  `answer(n)` is the reply to the n-th request.
- `Markup.Document` holds the paragraphs added to a DOCX.

The loops of the source are methods proved against specification
functions, and the properties are lemmas about those functions.

## Design and code

Where the documented design of the system and the code differ, the model
follows the code:

- The design promises that temporary decoded copies are always deleted.
  In the code, the converted WAV of the whole-file path is deleted only
  after it was read back. If that read fails, the file stays behind
  (`Pipeline.ConvertedFileCleanup`). A partial file that a failing
  `export` leaves behind stays too. Segment files are deleted after their
  read, but an `export` that fails outside the segment's `try` leaves its
  partial file behind.
- The design gives every segment the full recognition client, with
  fallback, retry and distinct markers. The code makes one read and one
  request per segment. Any exception while reading or recognising a
  segment becomes the same `[Erro no segmento k]` marker, and a failed
  export ends the segmented path with its failure marker.
- The design places the minimum size check in decoding. The code checks
  existence, then the byte size, before decoding anything.
- A recording of at most 60 000 ms is not segmented at all: it takes the
  whole-file path, and its transcript carries no segment header. A
  recording that is segmented always has at least two windows
  (`Segmenter.LongAudioHasSeveralWindows`). Every segmented transcript
  opens with `[`: with `[Segmento 1]`, or, when an export fails, with
  `[Erro na transcrição por segmentos: …]`
  (`LongAudio.SegmentedTextIsBracketed`).

## Model

| member | source | states |
|---|---|---|
| Segmenter.CutWindows | app.py:231-241 | the cutting loop produces exactly the windows `[i, min(i + 45000, D))` for i = 0, 45000, … |
| Segmenter.CutCount | app.py:237 | there are ceil(D / 45000) windows: enough to reach D, and one fewer would not |
| Segmenter.CutTiles | app.py:237-239 | the windows start at 0, each starts where the previous ended, the last ends at D; each is 1..45000 ms long and all but the last exactly 45000 |
| Segmenter.CutOrdered | app.py:237-239 | an earlier window ends no later than a later one starts: no overlap |
| Segmenter.CutCovers | app.py:237-239 | every instant t < D lies in exactly one window, the (t / 45000)-th |
| Segmenter.LongAudioHasSeveralWindows | app.py:115-121 | a recording routed to the segmented path (over 60 000 ms) has at least two windows |
| Recognition.AttemptExit | app.py:196-214 | an attempt leaves the loop unless the answer is a timeout and the attempt is not the last |
| Recognition.RetryShape | app.py:177-207 | the loop makes 1 to 3 requests; every request but the last timed out; before the third a non-timeout ends the loop, and the last answer decides the exit |
| Recognition.ThreeTimeouts | app.py:199-207 | three timeouts end the loop with the timeout marker after exactly three requests |
| Recognition.StopsAtFirstNonTimeout | app.py:209-214 | the first non-timeout answer ends the loop at that request: "not understood" and a request error give their markers, any other exception escapes |
| Recognition.HeardText | app.py:187-197 | a first answer with text ends the loop after one request with that text, or with the empty-audio marker when the text is blank |
| Recognition.Attempt | app.py:183-218 | one request is logged with the 60 s socket timeout, and the host's timeout is as before afterwards |
| Recognition.RecognizeWithRetry | app.py:176-218 | the loop's exit and request log equal the specification run on the oracle's next three answers, and the socket timeout is restored |
| Recognition.ReadFallback | app.py:147-174 | the result is a failure exactly when all three reads fail, and then it carries the last read's message |
| Recognition.ReadFallbackFirstSuccess | app.py:147-174 | the first successful read, in the order converted, original with calibration, original without, supplies the audio |
| Stitching.Stitch | app.py:287 | the stitched transcript: numbered blocks joined by blank lines (its layout is `StitchLayout`) |
| Stitching.StitchAppend | app.py:287 | stitching one more segment appends a blank line and that segment's numbered block |
| Stitching.StitchOne | app.py:287 | one segment stitches to its block alone |
| Stitching.StitchPrefix | app.py:287 | the transcript of the first k segments is a prefix of the whole transcript |
| Stitching.StitchLayout | app.py:287 | segment j's block `[Segmento j+1]\n<text>` sits at its offset, is followed by a blank line and then the next block, and the last block ends the transcript |
| Stitching.StitchOpensWithFirstHeader | app.py:287 | a non-empty transcript opens with `[Segmento 1]\n` |
| Stitching.StitchThree | app.py:287 | three segments give block 1, blank line, block 2, blank line, block 3 |
| Stitching.StitchThreeExample | app.py:287 | segments "a", "b", "c" give the transcript with their headers in index order |
| LongAudio.SegmentsAreIsolated | app.py:244-285 | the loop handles every segment up to the first failed export; segment j's text depends only on its own read and its own answer; a failed read gives `[Erro no segmento j+1]`; one request per successful read |
| LongAudio.RunIsBracketed | app.py:286-294 | a loop over at least one segment returns a text opening with `[` |
| LongAudio.SegmentedTextIsBracketed | app.py:226-294 | the segmented path's result always opens with `[` |
| LongAudio.TranscribeSegment | app.py:257-284 | one segment's text is its specification text, it makes one request under the 45 s timeout if the read succeeded, its temporary file is deleted, and the socket timeout is restored |
| LongAudio.AppendSegment | app.py:244-284 | one loop pass extends the texts, requests and deleted files to those of the specification after one more segment |
| LongAudio.TranscribeSegments | app.py:244-294 | the loop's text and requests are those of the specification run; every segment file it made is deleted except the partial file of a failed export, which stays; the timeout is restored |
| LongAudio.TranscribeLongAudio | app.py:226-294 | the segmented path returns the specification text, sends exactly its requests, deletes every segment file it made except one a failed export left behind, and restores the timeout |
| Pipeline.RejectedBeforeReading | app.py:85-94 | a missing file or one under 1000 bytes gets its marker with no read, no temporary file and no request |
| Pipeline.UnreadableMakesNoRequest | app.py:157-174 | when all three reads fail, the result is the unreadable marker with the last read's message, and the recogniser is never called |
| Pipeline.WholeFileRequests | app.py:176-218 | on the whole-file path the recogniser is called 1 to 3 times, always with the first successful read's audio under the 60 s timeout, and all but the last call timed out |
| Pipeline.ConvertedFileCleanup | app.py:132-158 | after decoding, the converted WAV is written when the export succeeds or fails leaving a partial file; it remains in the temporary directory exactly when it was written and not both exported and read back |
| Pipeline.LongIsSegmented | app.py:114-121 | a long recording is answered by the segmented path, whose text opens with `[`; a temporary file stays only when a segment's export failed |
| Pipeline.ReadAudio | app.py:107-174 | the reading half returns the fallback's result; the temporary directory keeps the converted WAV when it was exported but not read back, or when a failed export left a partial file |
| Pipeline.TranscribeWhole | app.py:107-224 | text, requests and temporary files, partial files of failed exports included, are those of the whole-file specification; the socket timeout is restored |
| Pipeline.TranscribeFile | app.py:80-224 | text, requests and temporary files, partial files of failed exports included, are those of the specification of the whole transcription; the socket timeout is restored on every path |
| Markup.PdfBlock | app.py:405-429 | a line becomes a spacer or one of the four text blocks, whose text is trimmed; a normal block is never empty |
| Markup.PdfStoryShape | app.py:393-429 | the story is title, spacer, date, spacer, then exactly one block per `\n`-separated line in order |
| Markup.PdfSpacerIffBlank | app.py:406-409 | a line becomes a spacer exactly when it is blank |
| Markup.PdfBlockIgnoresMargins | app.py:406 | surrounding whitespace never changes a line's block |
| Markup.BareHeaderIsText | app.py:412-429 | a line that strips to `##` or `###` is a normal paragraph of that text |
| Markup.HeaderMarkerAlone | app.py:406-414 | the line `## ` is the normal text `##` |
| Markup.BareStarsAreEmptyBold | app.py:423-425 | a line that strips to `**` or `***` is an empty bold line |
| Markup.StarsAlone | app.py:423-425 | the line `**` is an empty bold line |
| Markup.PdfBlockWellFormed | app.py:405-429 | every non-blank line is classified into a well-formed block |
| Markup.PdfBlockMarkdown | app.py:405-429 | writing a well-formed block back as markup and classifying it gives the block back |
| Markup.AppendPdfLine | app.py:405-429 | one loop pass appends the classified block of the stripped line |
| Markup.AppendPdfLines | app.py:404-429 | the loop appends exactly the blocks of the lines, in order |
| Markup.CreatePdfStory | app.py:393-429 | the story built is the specification story |
| Markup.DocxBlockIffNonBlank | app.py:452-474 | in either mode a line gives a paragraph exactly when it is not blank |
| Markup.DocxBlocksCount | app.py:452-474 | the body has one paragraph per non-blank line |
| Markup.DocxPlainKeepsLines | app.py:469-474 | in plain mode every paragraph is a normal paragraph holding one of the lines unchanged |
| Markup.DocxAgreesWithPdf | app.py:453-468 | in markup mode the DOCX classifies every non-blank line as the PDF does, up to stripping the text after the marker |
| Markup.PlainModeKeepsMarkers | app.py:452-474 | a one-line text without `##` is copied as it is, bold markers included |
| Markup.Document.Add | app.py:464-468 | adding a paragraph appends it after the existing ones |
| Markup.AddMarkupLine | app.py:455-468 | one markup-mode pass adds the paragraph the stripped line calls for, if any |
| Markup.AddMarkupLines | app.py:453-468 | the markup-mode loop adds exactly the specification paragraphs |
| Markup.AddPlainLines | app.py:471-474 | the plain-mode loop adds exactly the non-blank lines, unchanged |
| Markup.CreateDocx | app.py:436-474 | the document holds title, date, an empty paragraph, then the body in the mode chosen by `##` |
| Refinement.ImprovePrompt | app.py:302-317 | the improvement request: the fixed instructions around the transcription (what it carries is `ImprovePromptCarriesText`) |
| Refinement.ImprovePromptCarriesText | app.py:302-317 | the improvement prompt contains the transcription verbatim |
| Refinement.ImproveKeepsUnrefinable | app.py:298-299 | without a model, for an empty text or a `[` marker, the text is returned unchanged |
| Refinement.ImproveKeepsOnFailure | app.py:322-324 | a failing model call leaves the text unchanged |
| Refinement.Improve | app.py:296-324 | the result is the transcription unchanged or a text without surrounding whitespace |
| Refinement.ImproveRefines | app.py:298-321 | a refinable transcription whose request succeeds becomes the model's answer stripped |
| Refinement.ImproveChanges | app.py:298-324 | a text changes only when refinable and the model answered, and then it becomes the model's answer stripped |
| Refinement.RouteGuardRedundant | app.py:656-658 | the route's own guard before calling improve changes nothing |
| Refinement.ExitTextIsMarkerOrSpeech | app.py:176-224 | the retry loop yields a `[` marker or the non-blank text of the answer that ended it |
| Refinement.TranscriptIsMarkerOrSpeech | app.py:80-224 | a transcript is a `[` marker or non-blank speech heard on the whole-file path |
| Refinement.RefinedOnlyHeardSpeech | app.py:653-658 | only speech heard on the whole-file path is ever rewritten by the model |
| Refinement.LongTranscriptNotRefined | app.py:653-658 | a long recording's segmented transcript is never sent to the model |
| Refinement.SummaryPrompt | app.py:862-913 | the summary request: the custom template around a non-empty stripped instruction and the transcription, else the default template (what it carries is `SummaryPromptCarries`) |
| Refinement.SummaryPromptCarries | app.py:862-913 | a non-empty stripped instruction is embedded verbatim with the transcription; an empty one gives the default template, which carries the transcription |
| Refinement.GenerateSummary | app.py:835-973 | the reply of `generate_summary` for an owned, present file, a model and its answer (its contract is `SummarizedExactly`); ownership is the intended test, see Left out |
| Refinement.SummarizedExactly | app.py:838-967 | a summary is produced exactly when owned, present, configured and answered; a missing model and a failing model are errors; it is personalised exactly when the instruction is not blank |
| Naming.KeepAllowed | app.py:69 | the substitution only shortens and leaves only word characters, whitespace and `-` |
| Naming.KeepAllowedIdentity | app.py:69 | the substitution leaves a string alone exactly when all its characters are allowed |
| Naming.KeepAllowedChar | app.py:69 | one character is kept exactly when it is allowed |
| Naming.KeepAllowedAppend | app.py:69 | the substitution works character by character: it keeps the allowed characters of a concatenation in order |
| Naming.SanitizeFilename | app.py:67-69 | `sanitize_filename`: the allowed characters, then stripped (its properties are the three lemmas below) |
| Naming.SanitizedIsClean | app.py:67-69 | a sanitized name holds only allowed characters and is trimmed |
| Naming.SanitizeIdempotent | app.py:67-69 | sanitizing twice is sanitizing once |
| Naming.SanitizeKeepsCleanName | app.py:67-69 | a trimmed name of allowed characters is kept as it is |
| Naming.LastIndex | app.py:661 | `rfind`: -1 or the index of the last occurrence |
| Naming.SplitExtRoot | app.py:661 | `splitext(p)[0]` is a prefix of p |
| Naming.RootOfExtension | app.py:661 | the root of `b.ext` is b, for b without `/` and not made of dots alone (other dots allowed), and ext without dots or slashes |
| Naming.RecordingName | app.py:603-610 | a saved recording's name starts with its user's name and `_`, and ends in `.wav` |
| Naming.RecordingNameParts | app.py:603-610 | a saved recording is named `<user>_<patient part>_<date>_<time>.wav` |
| Naming.ListedBaseOfRecording | app.py:661-662 | a recording's transcription is `<base>_transcricao.txt`, and removing the suffix gives the base back, for any base without `/`, not made of dots alone, and not itself holding `_transcricao.txt` (dots allowed) |
| Naming.NoSuffixAfterUser | app.py:661-662 | `<user>_<rest>`, for a user with no `.` after an `_` and a plain rest, holds neither file suffix |
| Naming.SavedBaseIsRoutable | app.py:603-610 | the base name of a recording saved by a user with no `/` and no `.` after an `_` has no `/`, is not only dots, and holds neither `_transcricao.txt` nor `_resumo.txt` |
| Naming.PatientName | app.py:787-789 | the patient name is `Conversa` or one of the `_`-separated parts |
| Naming.SplitBaseName | app.py:788 | a base name of four underscore-free parts splits back into them |
| Naming.PatientNameOfBase | app.py:787-789 | the patient name of a base name is its second part, or `Conversa` when that is `conversa` |
| Naming.ListedPatientName | app.py:787-789 | for a user name without `_` or `/` (dots allowed) and a sanitized patient name without `_`, the listing recovers the patient name given at saving, or `Conversa` |
| Naming.PatientNameIsSecondPart | app.py:787-789 | the patient of `<first>_<second>_<rest>` is `<second>` (or `Conversa`), whatever rest holds; so for an underscored user name the part after its `_` is taken for the patient |
| Naming.ListedPatientOfUnderscoredUser | app.py:603-610 | a recording of user `<first>_<second>` is listed with patient `<second>` (or `Conversa`), whatever patient was given |
| Naming.ListedBaseOfSavedRecording | app.py:603-610 | for a user name with no `/` and no `.` after an `_`, the listing sees the base name a recording was saved under |
| Naming.BaseNameOfUnderscoredUser | app.py:788 | the base name of user `<first>_<second>` is `<first>_<second>_` and the rest |
| Naming.JoaoPedroListedAsPedro | app.py:787-789 | `joao_pedro_maria_20240101_120000` is listed with patient `pedro` |
| Naming.Preview | app.py:781 | a text of at most 200 characters is its own preview; a longer one is its first 200 characters and `...` |
| Naming.ExportTitle | app.py:1027-1030 | the export title starts with `Resumo da Consulta - ` |
| Naming.ExportTitleNamesPatient | app.py:1027-1030 | for a user name without `_` or `/` and a patient part without `_`, the title of an exported summary is `Resumo da Consulta - ` and the patient given at saving (or `Conversa`), under the intended summary name and under the name the code writes |
| Naming.SummaryNameAsWritten | app.py:920-921 | the summary name the code writes: the transcription's root and `_resumo.txt` |
| Naming.SummaryName | app.py:792 | the summary name the listing looks for: the recording's base and `_resumo.txt` |
| Naming.SummaryNameMismatch | app.py:920-921 | for a base without `/`, not only dots and not holding `_transcricao.txt`, the summary as written is `<base>_transcricao_resumo.txt`, never the name the listing looks for |
| Naming.SummaryNameRoundTrip | app.py:787-792 | for a base without `/`, not only dots and holding neither suffix (dots allowed), the intended summary name is the one the listing and the deletion route use, and leads back to the transcription |
| Naming.OwnsAsWritten | app.py:642 | the ownership test as written: the file name starts with the user name |
| Naming.Owns | app.py:642 | the ownership test as intended: the file name starts with the user name and `_` |
| Naming.OwnsAsWrittenAdmitsOthers | app.py:642 | as written, a user whose name is a proper prefix of another's passes the test on that user's recordings |
| Naming.AnaOpensAnabela | app.py:642 | user `ana` passes the test as written on a recording of `anabela` |
| Naming.OwnsRecording | app.py:642 | with the intended test, among user names without `_`, a recording belongs exactly to the user who saved it |
| Naming.OwnsUnderscored | app.py:642 | for user names without `_`, `<other>_<rest>` passes the intended test for user exactly when user is other |
| Naming.OwnsUnderscoredUsers | app.py:642 | even the intended test lets user `u` open the recordings of user `u_<suffix>` |
| Naming.AOpensAB | app.py:642 | user `a` passes the intended test on a recording of `a_b` |
| Accounts.Register | app.py:512-524 | registration succeeds exactly when the name is free, the confirmation matches and the password has 6 characters; otherwise the first failing check is reported |
| Accounts.RegisterThenLogin | app.py:491-524 | a registration adds exactly the new user, who can then log in, and decides every other login as before |
| Accounts.RefusedNeverOverwrites | app.py:512-513 | a taken user name is refused and the existing account kept |
| Listing.SessionNameParts | app.py:1115-1118 | a name containing `_sessao_` has at least three `_`-parts, so `parts[2]` exists |
| Listing.SessionIdOf | app.py:1115-1118 | for user and id without `_`, `<user>_sessao_<id>_<rest>` belongs to session id |
| Listing.UnderscoredUserSessionId | app.py:1115-1118 | for user `<first>_<second>` every session segment is grouped under the id `sessao` |
| Listing.PatientSessaoIsGrouped | app.py:1115-1118 | for a user name without `_`, a recording saved for patient `sessao` is taken for a session segment whose id is the date |
| Listing.ListedSimple | app.py:1133-1140 | the simple recordings are the shown files outside sessions, in listing order |
| Listing.ListedSession | app.py:1115-1132 | session id is listed exactly when it has a shown segment, with all its segments in order and their summed size |
| Listing.ListedOrder | app.py:1120-1143 | the session order lists every session once |
| Listing.FirstSeen | app.py:1105-1123 | the index of the first file that is a shown segment of a session, no file before it being one |
| Listing.OrderSeenStep | app.py:1120-1123 | one more file keeps the sessions in first-seen order: a new session goes last |
| Listing.ListedOrderFirstSeen | app.py:1120-1143 | a session is listed exactly when one of its segments is shown, and the sessions come in the order their first segments appear in the directory |
| Listing.ListRecordings | app.py:1104-1143 | the listing built file by file in directory order (its contents are `ListRecordingsContents`) |
| Listing.ListRecordingsContents | app.py:1104-1143 | the listing's simple recordings, sessions, segments, total sizes and session order, file by file |
| Listing.ListRecordingsStep | app.py:1105-1140 | the listing of one more file is that file added to the listing before it |
| Listing.AddSegment | app.py:1120-1132 | a segment creates its session empty when first seen, then is appended and its size added |
| Listing.ListFile | app.py:1106-1140 | one loop pass is the specification's handling of that file |
| Listing.GetRecordings | app.py:1098-1149 | the loop computes the specification listing of the directory |

## Left out

- Flask routing, the session, `flash`, templates and JSON responses are not
  modelled. Only the string, validation and decision rules inside the
  routes are.
- File I/O is not modelled: `os.listdir`, `open`, `os.path.exists` and
  `getsize`, `rename` and `remove`. Existence, sizes and directory contents
  are inputs, and the temporary directory is a set of names.
- pydub decoding, resampling, `normalize()` and `convert_to_wav` are
  foreign codec code. Their outcomes (decoded length, export success, read
  success) are inputs.
- `recognize_google` is an oracle answering the n-th request, and so are
  `adjust_for_ambient_noise` and `record`, as read outcomes. The Gemini
  `generate_content` call is an oracle on the prompt.
- reportlab and python-docx are modelled as blocks only. Styles, fonts,
  colours, page layout and document bytes are not modelled.
- `datetime.now()` is a given timestamp string. `time.sleep(2)` between
  attempts and all `print` logging are not modelled.
- `hash_password`'s SHA-256 is an uninterpreted function.
- The recogniser's thresholds, `operation_timeout` and the calibration
  durations (0.5 s and 0.3 s) are settings of the oracle and are not
  modelled.
- Python's Unicode `\w` class is a given predicate `word` on characters.
  Whitespace, for `strip()` and for `\s`, is the set of characters for
  which `str.isspace()` holds.
- `generate_summary`'s combined copy file (`_conversa_completa.txt`) is
  best-effort and not modelled.
- These routes are not modelled: `rename_recording`, `delete_recording`
  (beyond the summary name it removes), `finalize_session`, `view_summary`,
  `view_transcription`, `save_summary_copy` (beyond its name rule) and the
  downloads.
- The transcription listing's sort by modification time and its read-error
  preview are not modelled.
- Listing.GetRecordings: the outer `except` that turns any failure into an
  error response is not modelled. A listed file's size and transcription
  existence are inputs.
- Listing.ListRecordings: a file is listed by the intended ownership test
  (`Naming.Owns`, through `Listing.Shown`), not by the bare prefix test of
  line 1106 (`Naming.OwnsAsWritten`). See Findings.
- Listing.ListedSimple: a file is listed by the intended ownership test
  (`Naming.Owns`), not by the bare prefix test of the code
  (`Naming.OwnsAsWritten`). See Findings.
- Listing.ListedSession: a file is listed by the intended ownership test
  (`Naming.Owns`), not by the bare prefix test of the code
  (`Naming.OwnsAsWritten`). See Findings.
- Listing.ListRecordingsContents: a file is listed by the intended ownership test
  (`Naming.Owns`), not by the bare prefix test of the code
  (`Naming.OwnsAsWritten`). See Findings.
- Listing.ListFile: a file is listed by the intended ownership test
  (`Naming.Owns`), not by the bare prefix test of the code
  (`Naming.OwnsAsWritten`). See Findings.
- Listing.GetRecordings: a file is listed by the intended ownership test
  (`Naming.Owns`), not by the bare prefix test of the code
  (`Naming.OwnsAsWritten`). See Findings.
- Refinement.GenerateSummary: the request is admitted by the intended
  ownership test (`Naming.Owns`), not by the `startswith(user_id)` of line
  844, and the summary is named with the intended summary name
  (`Naming.SummaryName`), not the name of lines 920-921. See Findings.
- Refinement.SummarizedExactly: states the reply of `GenerateSummary`, so it
  has the same intended ownership test and summary name. See Findings.
- Naming.ListedPatientName: holds only when the user name and the patient
  part have no `_`. A `_` in the user name shifts the parts, as
  `PatientNameIsSecondPart` and `ListedPatientOfUnderscoredUser` show.
- Naming.ListedBaseOfSavedRecording: stated for user names with no `.`
  after an `_`. This keeps `_transcricao.txt` and `_resumo.txt` out of the
  base name. For other dotted user names it holds unless the user name
  itself contains one of those suffixes, a case the lemma does not single
  out.
- Naming.ListedPatientOfUnderscoredUser: stated, for the same reason, for
  user names with no `.` after their `_`.
- Naming.ExportTitleNamesPatient: holds only for user names and patient
  parts without `_`. Otherwise the title names the wrong part, as
  `PatientNameIsSecondPart` shows.
- Naming.PatientNameOfBase: holds only for parts without `_`, as above.
- Naming.SplitBaseName: holds only for parts without `_`, as above.
- Listing.SessionIdOf: holds only for user names without `_`. For other
  users the session id is the wrong part, as `UnderscoredUserSessionId`
  shows.
- Listing.PatientSessaoIsGrouped: holds only for user names without `_`, as
  above.
- Naming.OwnsRecording: holds only for user names without `_`.
  Registration does not forbid `_`, and then even the intended test lets
  `a` open the files of `a_b` (`OwnsUnderscoredUsers`).
- Naming.OwnsUnderscored: holds only for user names without `_`, as above.
- Services.Step: whether a failed `export` left a partial file is an input
  of the model; which failures of the codec do so is not modelled.

## Findings

| source | as written | input that shows it | evidently intended | confidence | as-written member | corrected member |
|---|---|---|---|---|---|---|
| app.py:642 | the ownership test is `filename.startswith(user_id)`, repeated in every route | user `ana` and the recording `anabela_conversa_20240101_120000.wav` of user `anabela`: the test passes | the file name starts with the user name followed by `_`, so among user names without `_` a file belongs only to the user who saved it (a `_` in user names would need a further rule; see `OwnsUnderscoredUsers`) | not executed | Naming.AnaOpensAnabela | Naming.OwnsRecording |
| app.py:920-921 | the summary of `<base>_transcricao.txt` is saved as `<base>_transcricao_resumo.txt` | transcription `u_p_20240101_120000_transcricao.txt`: the summary is written as `u_p_20240101_120000_transcricao_resumo.txt`, while the listing (line 792) and the deletion route (line 1182) look for `u_p_20240101_120000_resumo.txt` | the summary is named `<base>_resumo.txt`, which the listing reports, the deletion removes and `save_summary_copy` maps back to the transcription | not executed | Naming.SummaryNameMismatch | Naming.SummaryNameRoundTrip |
