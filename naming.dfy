/**
  The names the application gives its files and reads back out of them:
  `sanitize_filename`, the recording name built when a recording is saved,
  the transcription and summary names derived from it, the patient name the
  listings and exports recover from those names, the listing preview, and
  the ownership test every route applies to a file name.
*/
module Naming {
  import opened Text

  // ---------------------------------------------------------------- sanitize_filename

  /**
    The characters `re.sub(r'[^\w\s-]', '', name)` keeps: those in Python's
    Unicode `\w` class, given as the predicate `word`, whitespace and `-`.
  */
  predicate Allowed(c: char, word: char -> bool) {
    word(c) || IsSpace(c) || c == '-'
  }

  /** The regular-expression substitution: every character not allowed is removed. */
  function KeepAllowed(s: string, word: char -> bool): (r: string)
    ensures |r| <= |s|
    ensures forall i :: 0 <= i < |r| ==> Allowed(r[i], word)
  {
    if s == [] then []
    else (if Allowed(s[0], word) then [s[0]] else []) + KeepAllowed(s[1..], word)
  }

  /** The substitution leaves a string alone exactly when all its characters are allowed. */
  lemma {:induction false} KeepAllowedIdentity(s: string, word: char -> bool)
    ensures KeepAllowed(s, word) == s <==> forall i :: 0 <= i < |s| ==> Allowed(s[i], word)
    decreases |s|
  {
    if s != [] {
      KeepAllowedIdentity(s[1..], word);
      if forall i :: 0 <= i < |s| ==> Allowed(s[i], word) {
        assert forall i :: 0 <= i < |s[1..]| ==> Allowed(s[1..][i], word) by {
          forall i | 0 <= i < |s[1..]| ensures Allowed(s[1..][i], word) {
            assert s[1..][i] == s[i + 1];
          }
        }
        assert [s[0]] + s[1..] == s;
      }
    }
  }

  /** A single character is kept exactly when it is allowed. */
  lemma KeepAllowedChar(c: char, word: char -> bool)
    ensures KeepAllowed([c], word) == if Allowed(c, word) then [c] else []
  {
    assert [c][1..] == [];
  }

  /**
    The substitution works character by character: the characters kept from
    `a + b` are those kept from `a` followed by those kept from `b`, so
    every allowed character is kept, in its order.
  */
  lemma {:induction false} KeepAllowedAppend(a: string, b: string, word: char -> bool)
    ensures KeepAllowed(a + b, word) == KeepAllowed(a, word) + KeepAllowed(b, word)
    decreases |a|
  {
    if a != [] {
      assert (a + b)[0] == a[0];
      assert (a + b)[1..] == a[1..] + b;
      KeepAllowedAppend(a[1..], b, word);
      AppendAssoc(if Allowed(a[0], word) then [a[0]] else [], KeepAllowed(a[1..], word), KeepAllowed(b, word));
    } else {
      assert a + b == b;
    }
  }

  /** `sanitize_filename(name)`: disallowed characters removed, then surrounding whitespace stripped. */
  function SanitizeFilename(name: string, word: char -> bool): string {
    Strip(KeepAllowed(name, word))
  }

  /** A sanitized name has only allowed characters and no surrounding whitespace. */
  lemma SanitizedIsClean(name: string, word: char -> bool)
    ensures var r := SanitizeFilename(name, word);
      Trimmed(r) && forall i :: 0 <= i < |r| ==> Allowed(r[i], word)
  {
    StripKeepsChars(KeepAllowed(name, word));
  }

  /** Sanitizing twice is sanitizing once. */
  lemma SanitizeIdempotent(name: string, word: char -> bool)
    ensures SanitizeFilename(SanitizeFilename(name, word), word) == SanitizeFilename(name, word)
  {
    var r := SanitizeFilename(name, word);
    SanitizedIsClean(name, word);
    KeepAllowedIdentity(r, word);
    StripTrimmed(r);
  }

  /** A name made only of allowed characters, with no surrounding whitespace, is kept as it is. */
  lemma SanitizeKeepsCleanName(name: string, word: char -> bool)
    requires Trimmed(name)
    requires forall i :: 0 <= i < |name| ==> Allowed(name[i], word)
    ensures SanitizeFilename(name, word) == name
  {
    KeepAllowedIdentity(name, word);
    StripTrimmed(name);
  }

  // ---------------------------------------------------------------- recording names

  /** `strftime('%Y%m%d_%H%M%S')`: the date and the time of day, joined by an underscore. */
  function Stamp(date: string, time: string): string {
    date + "_" + time
  }

  predicate Digits(s: string) {
    forall i :: 0 <= i < |s| ==> '0' <= s[i] <= '9'
  }

  /**
    The middle part of a recording's name: the patient name (already stripped
    by the route) sanitized, or `conversa` when no patient name was given.
  */
  function PatientPart(patient: string, word: char -> bool): string {
    if Strip(patient) != [] then SanitizeFilename(Strip(patient), word) else "conversa"
  }

  /** The name a saved recording gets: `<user>_<patient part>_<stamp>.wav`. */
  function RecordingName(user: string, patient: string, stamp: string, word: char -> bool): (r: string)
    ensures StartsWith(r, user + "_") && EndsWith(r, ".wav")
  {
    var part := PatientPart(patient, word);
    var head, tail := user + "_" + part + "_" + stamp, part + "_" + stamp + ".wav";
    RecordingNameAfterUser(user, part, stamp);
    assert (user + "_" + tail)[..|user + "_"|] == user + "_";
    assert (head + ".wav")[|head|..] == ".wav";
    head + ".wav"
  }

  /** Python's `s.rfind(c)`: the last index of `c`, or -1. */
  function LastIndex(s: string, c: char): (i: int)
    ensures -1 <= i < |s|
    ensures i >= 0 ==> s[i] == c
    ensures forall j :: i < j < |s| ==> s[j] != c
  {
    if s == [] then -1
    else if s[|s| - 1] == c then |s| - 1
    else LastIndex(s[..|s| - 1], c)
  }

  predicate AllDots(s: string) {
    forall i :: 0 <= i < |s| ==> s[i] == '.'
  }

  /**
    `os.path.splitext(p)[0]` on POSIX: everything before the last dot of the
    last path component, unless that component has only dots before it.
  */
  function SplitExtRoot(p: string): (r: string)
    ensures StartsWith(p, r)
  {
    var dot, sep := LastIndex(p, '.'), LastIndex(p, '/');
    if dot > sep && !AllDots(p[sep + 1..dot]) then p[..dot] else p
  }

  lemma LastIndexAt(s: string, c: char, i: nat)
    requires i < |s| && s[i] == c
    requires forall j :: i < j < |s| ==> s[j] != c
    ensures LastIndex(s, c) == i
  {
  }

  lemma LastIndexAbsent(s: string, c: char)
    requires c !in s
    ensures LastIndex(s, c) == -1
  {
  }

  /** A name with neither dots nor slashes. */
  predicate Plain(s: string) {
    forall k :: 0 <= k < |s| ==> s[k] != '.' && s[k] != '/'
  }

  lemma PlainConcat(a: string, b: string)
    ensures Plain(a + b) <==> Plain(a) && Plain(b)
  {
    var s := a + b;
    if Plain(a) && Plain(b) {
      forall k | 0 <= k < |s| ensures s[k] != '.' && s[k] != '/' {
        if k < |a| {
          assert s[k] == a[k];
        } else {
          assert s[k] == b[k - |a|];
        }
      }
    }
    if Plain(s) {
      forall k | 0 <= k < |a| ensures a[k] != '.' && a[k] != '/' {
        assert s[k] == a[k];
      }
      forall k | 0 <= k < |b| ensures b[k] != '.' && b[k] != '/' {
        assert s[|a| + k] == b[k];
      }
    }
  }

  /**
    The root of `b.ext` is `b`, for a `b` without slashes that is not made of
    dots alone, and an `ext` without dots or slashes.
  */
  lemma RootOfExtension(b: string, ext: string)
    requires '/' !in b && !AllDots(b) && Plain(ext)
    ensures SplitExtRoot(b + "." + ext) == b
  {
    var p := b + "." + ext;
    forall j | |b| < j < |p| ensures p[j] != '.' {
      assert p[j] == ext[j - |b| - 1];
    }
    LastIndexAt(p, '.', |b|);
    assert '/' !in p by {
      forall j | 0 <= j < |p| ensures p[j] != '/' {
        if j < |b| {
          assert p[j] == b[j];
        } else if j > |b| {
          assert p[j] == ext[j - |b| - 1];
        }
      }
    }
    LastIndexAbsent(p, '/');
    assert p[0..|b|] == b;
  }

  const TranscriptStem := "_transcricao"
  const TranscriptSuffix := TranscriptStem + ".txt"
  const SummarySuffix := "_resumo.txt"

  /** `_transcricao` is plain; `_transcricao.txt` has its dot at 12 and no second underscore. */
  lemma TranscriptSuffixShape()
    ensures Plain(TranscriptStem) && TranscriptSuffix == TranscriptStem + "." + "txt"
    ensures TranscriptSuffix[12] == '.'
    ensures forall k :: 1 <= k < |TranscriptSuffix| ==> TranscriptSuffix[k] != TranscriptSuffix[0]
  {
  }

  /** `_resumo.txt` has its dot at 7 and no second underscore. */
  lemma SummarySuffixShape()
    ensures SummarySuffix[7] == '.'
    ensures forall k :: 1 <= k < |SummarySuffix| ==> SummarySuffix[k] != SummarySuffix[0]
  {
  }

  /** The transcription file of a recording: its root and `_transcricao.txt`. */
  function TranscriptionName(recording: string): string {
    SplitExtRoot(recording) + TranscriptSuffix
  }

  /** What the listings take as a transcription's base name: every `_transcricao.txt` removed. */
  function ListedBase(transcription: string): string {
    RemoveAll(transcription, TranscriptSuffix)
  }

  /** The base name of a recording made of underscore-free parts. */
  function BaseName(user: string, part: string, date: string, time: string): string {
    user + "_" + part + "_" + date + "_" + time
  }

  /** The name of a freshly saved recording is its base name with `.wav`. */
  lemma RecordingNameParts(user: string, patient: string, date: string, time: string, word: char -> bool)
    ensures RecordingName(user, patient, Stamp(date, time), word)
         == BaseName(user, PatientPart(patient, word), date, time) + ".wav"
  {
  }

  /**
    The transcription of a recording, once its suffix is removed again, gives
    back the recording's base name: the listings see the name the recording
    was saved under. The base must stay in its directory (no `/`), keep a
    character other than a dot before `.wav`, and not hold
    `_transcricao.txt` itself; dots elsewhere in it do no harm.
  */
  lemma ListedBaseOfRecording(b: string)
    requires '/' !in b && !AllDots(b) && !Contains(b, TranscriptSuffix)
    ensures TranscriptionName(b + ".wav") == b + TranscriptSuffix
    ensures ListedBase(TranscriptionName(b + ".wav")) == b
  {
    assert Plain("wav");
    RootOfExtension(b, "wav");
    assert "." + "wav" == ".wav";
    AppendAssoc(b, ".", "wav");
    TranscriptSuffixShape();
    RemoveAllSuffix(b, TranscriptSuffix);
  }

  /**
    A user name whose recordings the file routes handle: no `/`, which would
    leave the recordings directory, and no `.` after an `_`, so that neither
    `_transcricao.txt` nor `_resumo.txt` can occur inside a recording's base
    name. Every user name without `_` or `/` is one.
  */
  predicate RoutableUser(user: string) {
    '/' !in user && forall j, k :: 0 <= j < k < |user| && user[j] == '_' ==> user[k] != '.'
  }

  /** `<user>_<rest>`, for a plain `rest`, holds no pattern that starts with `_` and has a dot further on. */
  lemma NoSuffixAfterUser(user: string, rest: string, p: string, dot: nat)
    requires RoutableUser(user) && Plain(rest)
    requires 0 < dot < |p| && p[0] == '_' && p[dot] == '.'
    ensures !Contains(user + "_" + rest, p)
  {
    var s := user + "_" + rest;
    if Contains(s, p) {
      var i := ContainsOccurrence(s, p);
      assert false;
    }
  }

  /** A base name is the user name, an underscore and the rest of the name. */
  lemma BaseNameAfterUser(user: string, part: string, date: string, time: string)
    ensures BaseName(user, part, date, time) == user + "_" + (part + "_" + date + "_" + time)
  {
    var u := user + "_";
    AppendAssoc(u, part, "_");
    AppendAssoc(u, part + "_", date);
    AppendAssoc(u, part + "_" + date, "_");
    AppendAssoc(u, part + "_" + date + "_", time);
  }

  /**
    The base name of a saved recording of a routable user is one the file
    routes handle: no `/`, not only dots, and no `_transcricao.txt` or
    `_resumo.txt` in it, nor `_resumo.txt` in its transcription's root.
  */
  lemma SavedBaseIsRoutable(user: string, part: string, date: string, time: string)
    requires RoutableUser(user) && Plain(part) && Plain(date) && Plain(time)
    ensures var b := BaseName(user, part, date, time);
      && '/' !in b && !AllDots(b)
      && !Contains(b, TranscriptSuffix) && !Contains(b, SummarySuffix)
      && !Contains(b + TranscriptStem, SummarySuffix)
  {
    var b := BaseName(user, part, date, time);
    var rest := part + "_" + date + "_" + time;
    assert Plain("_");
    PlainConcat(part, "_");
    PlainConcat(part + "_", date);
    PlainConcat(part + "_" + date, "_");
    PlainConcat(part + "_" + date + "_", time);
    TranscriptSuffixShape();
    PlainConcat(rest, TranscriptStem);
    BaseNameAfterUser(user, part, date, time);
    AppendAssoc(user + "_", rest, TranscriptStem);
    SummarySuffixShape();
    NoSuffixAfterUser(user, rest, TranscriptSuffix, 12);
    NoSuffixAfterUser(user, rest, SummarySuffix, 7);
    NoSuffixAfterUser(user, rest + TranscriptStem, SummarySuffix, 7);
    assert b[|user|] == '_';
    assert '/' !in rest by {
      forall k | 0 <= k < |rest| ensures rest[k] != '/' {
      }
    }
  }

  // ---------------------------------------------------------------- patient names

  /**
    The patient name shown for a base name: `Conversa` when the name splits
    into fewer than three `_`-separated parts or the second part is
    `conversa`, the second part otherwise.
  */
  function PatientName(base: string): (name: string)
    ensures name == "Conversa" || name in Split(base, '_')
  {
    var parts := Split(base, '_');
    if |parts| < 3 || parts[1] == "conversa" then "Conversa" else parts[1]
  }

  /** A base name of four underscore-free parts splits back into them. */
  lemma SplitBaseName(user: string, part: string, date: string, time: string)
    requires '_' !in user && '_' !in part && '_' !in date && '_' !in time
    ensures Split(BaseName(user, part, date, time), '_') == [user, part, date, time]
  {
    var parts := [user, part, date, time];
    assert parts[1..] == [part, date, time] && parts[1..][1..] == [date, time] && [date, time][1..] == [time];
    assert Join([date, time], "_") == date + "_" + time;
    assert Join([part, date, time], "_") == part + "_" + (date + "_" + time);
    assert Join(parts, "_") == BaseName(user, part, date, time);
    SplitJoin(parts, '_');
  }

  /**
    The patient name the listing shows for a recording's transcription is the
    sanitized name given when it was saved, or `Conversa` when none was given
    or it was `conversa` itself; the user name must hold no underscore and
    no slash (dots are allowed), the sanitized name no underscore.
  */
  lemma ListedPatientName(user: string, patient: string, date: string, time: string, word: char -> bool)
    requires '_' !in user && '/' !in user
    requires Digits(date) && Digits(time)
    requires !word('.') && !word('/')
    requires '_' !in PatientPart(patient, word)
    ensures PatientName(ListedBase(TranscriptionName(RecordingName(user, patient, Stamp(date, time), word))))
         == if PatientPart(patient, word) == "conversa" then "Conversa" else PatientPart(patient, word)
  {
    var part := PatientPart(patient, word);
    UnderscoreFreeIsRoutable(user);
    ListedBaseOfSavedRecording(user, patient, date, time, word);
    DigitsArePlain(date);
    DigitsArePlain(time);
    PatientNameOfBase(user, part, date, time);
  }

  /**
    The patient name of `<first>_<second>_<rest>` is `<second>`, or
    `Conversa` for `conversa`, whatever `rest` holds. When `<first>_<second>`
    is an underscored user name, the listing takes the wrong part.
  */
  lemma {:induction false} PatientNameIsSecondPart(first: string, second: string, rest: string)
    requires '_' !in first && '_' !in second
    ensures PatientName(first + "_" + second + "_" + rest) == if second == "conversa" then "Conversa" else second
  {
    SplitFirst(second, '_', rest);
    SplitFirst(first, '_', second + "_" + rest);
    assert first + "_" + second + "_" + rest == first + ['_'] + (second + ['_'] + rest);
  }

  /**
    For a user named `<first>_<second>` the listing shows `<second>` as the
    patient of every recording, whatever patient name was given.
  */
  lemma ListedPatientOfUnderscoredUser(first: string, second: string, patient: string, date: string, time: string, word: char -> bool)
    requires '_' !in first && '_' !in second && RoutableUser(first + "_" + second)
    requires Digits(date) && Digits(time)
    requires !word('.') && !word('/')
    ensures PatientName(ListedBase(TranscriptionName(RecordingName(first + "_" + second, patient, Stamp(date, time), word))))
         == if second == "conversa" then "Conversa" else second
  {
    var user := first + "_" + second;
    var part := PatientPart(patient, word);
    ListedBaseOfSavedRecording(user, patient, date, time, word);
    BaseNameOfUnderscoredUser(first, second, part, date, time);
    PatientNameIsSecondPart(first, second, part + "_" + date + "_" + time);
  }

  /** The listings see the base name a recording of a routable user was saved under. */
  lemma ListedBaseOfSavedRecording(user: string, patient: string, date: string, time: string, word: char -> bool)
    requires RoutableUser(user) && Digits(date) && Digits(time)
    requires !word('.') && !word('/')
    ensures ListedBase(TranscriptionName(RecordingName(user, patient, Stamp(date, time), word)))
         == BaseName(user, PatientPart(patient, word), date, time)
  {
    var part := PatientPart(patient, word);
    RecordingNameParts(user, patient, date, time, word);
    PatientPartIsPlain(patient, word);
    DigitsArePlain(date);
    DigitsArePlain(time);
    SavedBaseIsRoutable(user, part, date, time);
    ListedBaseOfRecording(BaseName(user, part, date, time));
  }

  /** A user name without `_` or `/` is routable. */
  lemma UnderscoreFreeIsRoutable(user: string)
    requires '_' !in user && '/' !in user
    ensures RoutableUser(user)
  {
  }

  /** The base name of user `<first>_<second>` is `<first>_<second>_` and the rest of the name. */
  lemma BaseNameOfUnderscoredUser(first: string, second: string, part: string, date: string, time: string)
    ensures BaseName(first + "_" + second, part, date, time) == first + "_" + second + "_" + (part + "_" + date + "_" + time)
  {
    var u := first + "_" + second + "_";
    AppendAssoc(u, part, "_");
    AppendAssoc(u, part + "_", date);
    AppendAssoc(u, part + "_" + date, "_");
    AppendAssoc(u, part + "_" + date + "_", time);
  }

  /** The example: a recording of user `joao_pedro` for patient `maria` is listed under patient `pedro`. */
  lemma JoaoPedroListedAsPedro()
    ensures PatientName("joao" + "_" + "pedro" + "_" + "maria_20240101_120000") == "pedro"
  {
    PatientNameIsSecondPart("joao", "pedro", "maria_20240101_120000");
  }

  /** The patient name of a base name is its second part, unless that is `conversa`. */
  lemma PatientNameOfBase(user: string, part: string, date: string, time: string)
    requires '_' !in user && '_' !in part && '_' !in date && '_' !in time
    ensures PatientName(BaseName(user, part, date, time)) == if part == "conversa" then "Conversa" else part
  {
    SplitBaseName(user, part, date, time);
  }

  /** Without dots or slashes in the word class, the patient part of a recording name is plain. */
  lemma PatientPartIsPlain(patient: string, word: char -> bool)
    requires !word('.') && !word('/')
    ensures Plain(PatientPart(patient, word))
  {
    if Strip(patient) != [] {
      SanitizedIsPlain(Strip(patient), word);
    } else {
      assert Plain("conversa");
    }
  }

  lemma SanitizedIsPlain(name: string, word: char -> bool)
    requires !word('.') && !word('/')
    ensures Plain(SanitizeFilename(name, word))
  {
    var r := SanitizeFilename(name, word);
    SanitizedIsClean(name, word);
    forall k | 0 <= k < |r| ensures r[k] != '.' && r[k] != '/' {
      AllowedIsPlain(r[k], word);
    }
  }

  lemma AllowedIsPlain(c: char, word: char -> bool)
    requires !word('.') && !word('/') && Allowed(c, word)
    ensures c != '.' && c != '/'
  {
    assert !IsSpace('.') && !IsSpace('/');
  }

  /** Digits hold neither underscores, dots nor slashes. */
  lemma DigitsArePlain(s: string)
    requires Digits(s)
    ensures Plain(s) && '_' !in s
  {
  }

  /** The listing's preview: the first 200 characters and `...` when the text is longer. */
  function Preview(content: string): (p: string)
    ensures |content| <= 200 ==> p == content
    ensures |content| > 200 ==> |p| == 203 && StartsWith(content, p[..200]) && EndsWith(p, "...")
  {
    if |content| > 200 then Take(content, 200) + "..." else content
  }

  /** The title of an exported summary: the patient recovered from the summary file's name. */
  function ExportTitle(summaryFile: string): (title: string)
    ensures StartsWith(title, "Resumo da Consulta - ")
  {
    var t := "Resumo da Consulta - " + PatientName(RemoveAll(summaryFile, SummarySuffix));
    assert t[..21] == "Resumo da Consulta - ";
    t
  }

  /**
    The title of an exported summary names the patient the recording was
    saved for (`Conversa` for none), whether the summary file carries the
    intended name or the name the code writes: both read back as the user,
    the patient part and the rest.
  */
  lemma ExportTitleNamesPatient(user: string, patient: string, date: string, time: string, word: char -> bool)
    requires '_' !in user && '/' !in user
    requires Digits(date) && Digits(time)
    requires !word('.') && !word('/')
    requires '_' !in PatientPart(patient, word)
    ensures var t, part := TranscriptionName(RecordingName(user, patient, Stamp(date, time), word)), PatientPart(patient, word);
      && ExportTitle(SummaryName(t)) == "Resumo da Consulta - " + (if part == "conversa" then "Conversa" else part)
      && ExportTitle(SummaryNameAsWritten(t)) == "Resumo da Consulta - " + (if part == "conversa" then "Conversa" else part)
  {
    var part := PatientPart(patient, word);
    var b := BaseName(user, part, date, time);
    RecordingNameParts(user, patient, date, time, word);
    PatientPartIsPlain(patient, word);
    DigitsArePlain(date);
    DigitsArePlain(time);
    UnderscoreFreeIsRoutable(user);
    SavedBaseIsRoutable(user, part, date, time);
    ListedBaseOfRecording(b);
    TranscriptionRoot(b);
    SummarySuffixShape();
    RemoveAllSuffix(b, SummarySuffix);
    RemoveAllSuffix(b + TranscriptStem, SummarySuffix);
    var h, rest := user + "_" + part + "_", date + "_" + time;
    AppendAssoc(h, date, "_");
    AppendAssoc(h, date + "_", time);
    AppendAssoc(h, rest, TranscriptStem);
    PatientNameIsSecondPart(user, part, rest);
    PatientNameIsSecondPart(user, part, rest + TranscriptStem);
  }

  // ---------------------------------------------------------------- summary file names

  /**
    The name `generate_summary` gives the summary of a transcription file as
    written: the transcription's root with `_resumo.txt`, so the summary of
    `<base>_transcricao.txt` is `<base>_transcricao_resumo.txt`.
  */
  function SummaryNameAsWritten(transcription: string): string {
    SplitExtRoot(transcription) + SummarySuffix
  }

  /**
    The name the transcription listing, the deletion route and the summary
    viewer all expect: the base name of the transcription with `_resumo.txt`.
  */
  function SummaryName(transcription: string): string {
    ListedBase(transcription) + SummarySuffix
  }

  /**
    For every recording, the summary written as the code stands is not the
    file the listing looks for: the listing never reports it.
  */
  lemma SummaryNameMismatch(b: string)
    requires '/' !in b && !AllDots(b) && !Contains(b, TranscriptSuffix)
    ensures SummaryNameAsWritten(TranscriptionName(b + ".wav")) == b + TranscriptStem + SummarySuffix
    ensures SummaryNameAsWritten(TranscriptionName(b + ".wav")) != SummaryName(TranscriptionName(b + ".wav"))
  {
    ListedBaseOfRecording(b);
    TranscriptionRoot(b);
    assert |b + TranscriptStem + SummarySuffix| != |b + SummarySuffix|;
  }

  /** The root of a recording's transcription name keeps `_transcricao`. */
  lemma TranscriptionRoot(b: string)
    requires '/' !in b
    ensures SplitExtRoot(b + TranscriptSuffix) == b + TranscriptStem
  {
    TranscriptSuffixShape();
    assert Plain("txt");
    var c := b + TranscriptStem;
    assert c[|b|] == '_';
    assert '/' !in TranscriptStem;
    RootOfExtension(c, "txt");
    AppendAssoc(b, TranscriptStem, ".");
    AppendAssoc(b, TranscriptStem + ".", "txt");
    AppendAssoc(b + TranscriptStem, ".", "txt");
  }

  /**
    With the summary named after the transcription's base name, the listing
    finds it, the deletion of the recording (root of the WAV with
    `_resumo.txt`) removes it, and removing `_resumo.txt` and adding
    `_transcricao.txt` leads back to the transcription.
  */
  lemma SummaryNameRoundTrip(b: string)
    requires '/' !in b && !AllDots(b) && !Contains(b, TranscriptSuffix) && !Contains(b, SummarySuffix)
    ensures SummaryName(TranscriptionName(b + ".wav")) == SplitExtRoot(b + ".wav") + SummarySuffix
    ensures RemoveAll(SummaryName(TranscriptionName(b + ".wav")), SummarySuffix) + TranscriptSuffix
         == TranscriptionName(b + ".wav")
  {
    ListedBaseOfRecording(b);
    var t := TranscriptionName(b + ".wav");
    assert SummaryName(t) == b + SummarySuffix;
    SummarySuffixShape();
    RemoveAllSuffix(b, SummarySuffix);
  }

  // ---------------------------------------------------------------- ownership

  /** The ownership test as written in every route: the file name starts with the user name. */
  predicate OwnsAsWritten(user: string, file: string) {
    StartsWith(file, user)
  }

  /** The ownership test as intended: the file name starts with the user name and its underscore. */
  predicate Owns(user: string, file: string) {
    StartsWith(file, user + "_")
  }

  /**
    As written, a user whose name is a proper prefix of another's passes the
    test on that other user's recordings: `ana` may open `anabela`'s files.
  */
  lemma OwnsAsWrittenAdmitsOthers(user: string, other: string, patient: string, stamp: string, word: char -> bool)
    requires StartsWith(other, user) && other != user && '_' !in other
    ensures OwnsAsWritten(user, RecordingName(other, patient, stamp, word))
    ensures !Owns(user, RecordingName(other, patient, stamp, word))
  {
    var f := RecordingName(other, patient, stamp, word);
    assert StartsWith(f, other) by {
      assert f[..|other|] == other;
    }
    StartsWithShorter(f, other, user);
    OwnsRecording(user, other, patient, stamp, word);
  }

  /** The example: `ana` passes the test as written on a recording of `anabela`. */
  lemma AnaOpensAnabela(word: char -> bool)
    ensures OwnsAsWritten("ana", RecordingName("anabela", "", "20240101_120000", word))
    ensures !Owns("ana", RecordingName("anabela", "", "20240101_120000", word))
  {
    assert "anabela"[..3] == "ana";
    OwnsAsWrittenAdmitsOthers("ana", "anabela", "", "20240101_120000", word);
  }

  /**
    With the intended test, among user names without underscores, a
    recording belongs exactly to the user who saved it.
  */
  lemma OwnsRecording(user: string, other: string, patient: string, stamp: string, word: char -> bool)
    requires '_' !in user && '_' !in other
    ensures Owns(user, RecordingName(other, patient, stamp, word)) <==> user == other
  {
    var rest := PatientPart(patient, word) + "_" + stamp + ".wav";
    RecordingNameAfterUser(other, PatientPart(patient, word), stamp);
    OwnsUnderscored(user, other, rest);
  }

  /**
    The intended test still lets a user open the recordings of any user whose
    name is theirs followed by an underscore: `a` owns the files of `a_b`.
  */
  lemma OwnsUnderscoredUsers(user: string, suffix: string, patient: string, stamp: string, word: char -> bool)
    ensures Owns(user, RecordingName(user + "_" + suffix, patient, stamp, word))
    ensures user + "_" + suffix != user
  {
    var u := user + "_";
    var tail := PatientPart(patient, word) + "_" + stamp + ".wav";
    RecordingNameAfterUser(user + "_" + suffix, PatientPart(patient, word), stamp);
    AppendAssoc(u, suffix + "_", tail);
    AppendAssoc(u, suffix, "_");
    var f := u + (suffix + "_" + tail);
    assert f[..|u|] == u;
  }

  /** The example: `a` passes the intended test on a recording of `a_b`. */
  lemma AOpensAB(word: char -> bool)
    ensures Owns("a", RecordingName("a_b", "", "20240101_120000", word))
  {
    OwnsUnderscoredUsers("a", "b", "", "20240101_120000", word);
  }

  /** A recording name is its user's name, an underscore and the rest of the name. */
  lemma RecordingNameAfterUser(user: string, part: string, stamp: string)
    ensures user + "_" + part + "_" + stamp + ".wav" == user + "_" + (part + "_" + stamp + ".wav")
  {
    var u := user + "_";
    AppendAssoc(u, part, "_");
    AppendAssoc(u, part + "_", stamp);
    AppendAssoc(u, part + "_" + stamp, ".wav");
  }

  /** A name `<other>_<rest>` passes the intended test for `user` exactly when `user` is `other`. */
  lemma OwnsUnderscored(user: string, other: string, rest: string)
    requires '_' !in user && '_' !in other
    ensures Owns(user, other + "_" + rest) <==> user == other
  {
    var f := other + "_" + rest;
    var u := user + "_";
    assert f[..|other| + 1] == other + "_";
    if |user| < |other| {
      assert f[|user|] == other[|user|] && u[|user|] == '_';
      DiffersAt(f, u, |user|);
    } else if |user| > |other| {
      assert f[|other|] == '_' && u[|other|] == user[|other|];
      DiffersAt(f, u, |other|);
    } else if Owns(user, f) {
      assert user == u[..|user|] == f[..|user|] == other;
    }
  }
}
