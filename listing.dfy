/**
  The recordings listing (`get_recordings`): the user's `.wav` files, in
  directory order, are split into simple recordings and segments of
  recording sessions; a file whose name contains `_sessao_` belongs to the
  session named by the third `_`-separated part of its name. Sessions are
  kept in a dictionary in the order they are first seen, each with its
  segments and their total size.
*/
module Listing {
  import opened Text
  import opened Naming

  const SessionMarker := "_sessao_"

  /** One file of the recordings directory, in the order the directory lists it, with its size in bytes. */
  datatype DirEntry = DirEntry(name: string, size: nat)

  /** One recording as the listing reports it. */
  datatype Entry = Entry(filename: string, size: nat, hasTranscription: bool)

  /** One recording session: its id, its segments in listing order and their total size. */
  datatype Session = Session(id: string, segments: seq<Entry>, totalSize: nat)

  /**
    The listing: the simple recordings in listing order, the sessions by id,
    and the ids in the order the dictionary was filled (the order of
    `sessions.values()`).
  */
  datatype Recordings = Recordings(recordings: seq<Entry>, sessions: map<string, Session>, order: seq<string>)

  /**
    Whether a file of the directory is listed for `user`: a `.wav` name that
    passes the ownership test, taken here as intended (`Naming.Owns`; the
    test as written, a bare prefix, is `Naming.OwnsAsWritten`).
  */
  predicate Shown(user: string, name: string) {
    Owns(user, name) && EndsWith(name, ".wav")
  }

  /** Whether a file is a segment of a recording session. */
  predicate InSession(name: string) {
    Contains(name, SessionMarker)
  }

  /** A name that contains `_sessao_` has at least three `_`-separated parts, so `parts[2]` exists. */
  lemma SessionNameParts(name: string)
    requires InSession(name)
    ensures |Split(name, '_')| >= 3
  {
    var i := ContainsOccurrence(name, SessionMarker);
    var a, c := name[..i], name[i + |SessionMarker|..];
    assert name == a + name[i..i + |SessionMarker|] + c;
    assert name == a + ['_'] + ("sessao" + ['_'] + c);
    SplitLength(a, '_', "sessao" + ['_'] + c);
    SplitLength("sessao", '_', c);
  }

  /** The session a segment belongs to: the third `_`-separated part of its name. */
  function SessionId(name: string): string
    requires InSession(name)
  {
    SessionNameParts(name);
    Split(name, '_')[2]
  }

  /** The third part of `a_b_c_rest` is `c` when `a`, `b` and `c` hold no separator. */
  lemma ThirdOfSplit(a: string, b: string, c: string, rest: string, sep: char)
    requires sep !in a && sep !in b && sep !in c
    ensures |Split(a + [sep] + b + [sep] + c + [sep] + rest, sep)| >= 3
    ensures Split(a + [sep] + b + [sep] + c + [sep] + rest, sep)[2] == c
  {
    var t := c + [sep] + rest;
    SplitFirst(c, sep, rest);
    SplitFirst(b, sep, t);
    SplitFirst(a, sep, b + [sep] + t);
    assert a + [sep] + b + [sep] + c + [sep] + rest == a + [sep] + (b + [sep] + t);
  }

  /** A session segment named `<user>_sessao_<id>_<rest>` belongs to session `id`. */
  lemma SessionIdOf(user: string, id: string, rest: string)
    requires '_' !in user && '_' !in id
    ensures InSession(user + "_sessao_" + id + "_" + rest)
    ensures SessionId(user + "_sessao_" + id + "_" + rest) == id
  {
    var name := user + "_sessao_" + id + "_" + rest;
    assert name == user + SessionMarker + (id + "_" + rest);
    ContainsInfix(user, SessionMarker, id + "_" + rest);
    assert name == user + ['_'] + "sessao" + ['_'] + id + ['_'] + rest;
    ThirdOfSplit(user, "sessao", id, rest, '_');
  }

  /**
    For a user named `<first>_<second>` every session segment is grouped under
    the id `sessao`: the third part of the name is the marker, not the id.
  */
  lemma UnderscoredUserSessionId(first: string, second: string, id: string, rest: string)
    requires '_' !in first && '_' !in second
    ensures InSession(first + "_" + second + "_sessao_" + id + "_" + rest)
    ensures SessionId(first + "_" + second + "_sessao_" + id + "_" + rest) == "sessao"
  {
    var user := first + "_" + second;
    var name := user + "_sessao_" + id + "_" + rest;
    assert name == user + SessionMarker + (id + "_" + rest);
    ContainsInfix(user, SessionMarker, id + "_" + rest);
    assert name == first + ['_'] + second + ['_'] + "sessao" + ['_'] + (id + "_" + rest);
    ThirdOfSplit(first, second, "sessao", id + "_" + rest, '_');
  }

  /**
    A recording saved for a patient named `sessao` is taken for a session
    segment: its timestamp's date becomes the session id.
  */
  lemma PatientSessaoIsGrouped(user: string, date: string, time: string, word: char -> bool)
    requires '_' !in user && Digits(date) && Digits(time)
    requires forall c :: c in "sessao" ==> word(c)
    ensures var name := RecordingName(user, "sessao", Stamp(date, time), word);
      InSession(name) && SessionId(name) == date
  {
    SessaoRecordingName(user, date, time, word);
    DigitsArePlain(date);
    SessionIdOf(user, date, time + ".wav");
  }

  /** The name a recording for patient `sessao` is saved under. */
  lemma SessaoRecordingName(user: string, date: string, time: string, word: char -> bool)
    requires forall c :: c in "sessao" ==> word(c)
    ensures RecordingName(user, "sessao", Stamp(date, time), word) == user + "_sessao_" + date + "_" + (time + ".wav")
  {
    SessaoPart(word);
    assert RecordingName(user, "sessao", Stamp(date, time), word)
        == user + "_" + "sessao" + "_" + (date + "_" + time) + ".wav";
    Regroup(user, date, time);
  }

  /** The same name, grouped the way a session segment's name is read. */
  lemma Regroup(user: string, date: string, time: string)
    ensures user + "_" + "sessao" + "_" + (date + "_" + time) + ".wav" == user + "_sessao_" + date + "_" + (time + ".wav")
  {
    var u, rest := user + "_" + "sessao" + "_", time + ".wav";
    assert u == user + "_sessao_" by {
      assert "_sessao_" == "_" + ("sessao" + "_");
      AppendAssoc(user, "_", "sessao" + "_");
      AppendAssoc(user + "_", "sessao", "_");
    }
    AppendAssoc(u, date + "_" + time, ".wav");
    AppendAssoc(date + "_", time, ".wav");
    AppendAssoc(u, date + "_", rest);
    AppendAssoc(u, date, "_");
  }

  /** The patient name `sessao` is kept as it is. */
  lemma SessaoPart(word: char -> bool)
    requires forall c :: c in "sessao" ==> word(c)
    ensures PatientPart("sessao", word) == "sessao"
  {
    var n := "sessao";
    assert Trimmed(n);
    StripTrimmed(n);
    forall i | 0 <= i < |n| ensures Allowed(n[i], word) {
      assert n[i] in n;
    }
    SanitizeKeepsCleanName(n, word);
  }

  /** How the listing treats a file of the directory. */
  datatype Kind = Hidden | Simple | Segment(id: string)

  /** Not listed for `user`, a simple recording, or a segment of the session `id`. */
  function KindOf(user: string, name: string): Kind {
    if !Shown(user, name) then Hidden
    else if InSession(name) then Segment(SessionId(name))
    else Simple
  }

  /** How the listing reports a file: its transcription is present when `<root>_transcricao.txt` exists. */
  function EntryOf(f: DirEntry, transcribed: string -> bool): Entry {
    Entry(f.name, f.size, transcribed(TranscriptionName(f.name)))
  }

  /** The listing after one more entry of kind `k`. */
  function AddEntry(r: Recordings, k: Kind, e: Entry): Recordings {
    match k
    case Hidden => r
    case Simple => r.(recordings := r.recordings + [e])
    case Segment(id) =>
      if id in r.sessions then
        var s := r.sessions[id];
        r.(sessions := r.sessions[id := Session(s.id, s.segments + [e], s.totalSize + e.size)])
      else
        r.(sessions := r.sessions[id := Session(id, [e], e.size)], order := r.order + [id])
  }

  /** The listing after one more file of the directory. */
  function AddFile(r: Recordings, user: string, f: DirEntry, transcribed: string -> bool): Recordings {
    AddEntry(r, KindOf(user, f.name), EntryOf(f, transcribed))
  }

  /** The listing of a directory: its files added one after the other. */
  function ListRecordings(user: string, files: seq<DirEntry>, transcribed: string -> bool): Recordings {
    if files == [] then Recordings([], map[], [])
    else AddFile(ListRecordings(user, files[..|files| - 1], transcribed), user, files[|files| - 1], transcribed)
  }

  // ---------------------------------------------------------------- what the listing holds, file by file

  /** The entries of the files of one kind, in listing order. */
  function OfKind(user: string, files: seq<DirEntry>, transcribed: string -> bool, k: Kind): seq<Entry> {
    if files == [] then []
    else
      var f := files[|files| - 1];
      OfKind(user, files[..|files| - 1], transcribed, k)
        + (if KindOf(user, f.name) == k then [EntryOf(f, transcribed)] else [])
  }

  /** The total size of some entries. */
  function TotalSize(es: seq<Entry>): nat {
    if es == [] then 0 else TotalSize(es[..|es| - 1]) + es[|es| - 1].size
  }

  predicate NoDuplicates<T(==)>(s: seq<T>) {
    forall i, j :: 0 <= i < j < |s| ==> s[i] != s[j]
  }

  /** One more entry adds its size to the total. */
  lemma TotalSizeAppend(es: seq<Entry>, e: Entry)
    ensures TotalSize(es + [e]) == TotalSize(es) + e.size
  {
    assert (es + [e])[..|es|] == es;
  }

  lemma NoDuplicatesAppend<T>(s: seq<T>, x: T)
    requires NoDuplicates(s) && x !in s
    ensures NoDuplicates(s + [x])
  {
  }

  /** The entries of every kind grow by the last file when it is of that kind, and only then. */
  lemma OfKindStep(user: string, files: seq<DirEntry>, transcribed: string -> bool, k: Kind)
    requires files != []
    ensures var front, f := files[..|files| - 1], files[|files| - 1];
      OfKind(user, files, transcribed, k)
        == OfKind(user, front, transcribed, k) + (if KindOf(user, f.name) == k then [EntryOf(f, transcribed)] else [])
  {
  }

  /** One more entry of kind `k` extends the simple recordings exactly when `k` is `Simple`. */
  lemma SimpleStep(p: Recordings, k: Kind, e: Entry)
    ensures AddEntry(p, k, e).recordings == p.recordings + (if k == Simple then [e] else [])
  {
  }

  /** One more entry keeps the description of the session `id` true, with `e` appended when it is one of its segments. */
  lemma SessionStep(p: Recordings, k: Kind, e: Entry, id: string, segs: seq<Entry>)
    requires id in p.sessions <==> segs != []
    requires id in p.sessions ==> p.sessions[id] == Session(id, segs, TotalSize(segs))
    ensures var r, segs' := AddEntry(p, k, e), segs + (if k == Segment(id) then [e] else []);
      && (id in r.sessions <==> segs' != [])
      && (id in r.sessions ==> r.sessions[id] == Session(id, segs', TotalSize(segs')))
  {
    var r := AddEntry(p, k, e);
    if k == Segment(id) {
      TotalSizeAppend(segs, e);
      if id in p.sessions {
        assert r.sessions[id] == Session(id, segs + [e], TotalSize(segs) + e.size);
      } else {
        assert segs + [e] == [e];
        assert r.sessions[id] == Session(id, [e], e.size);
      }
    } else {
      assert segs + [] == segs;
      match k
      case Hidden =>
        assert r == p;
      case Simple =>
        assert r.sessions == p.sessions;
      case Segment(other) =>
        assert id in r.sessions <==> id in p.sessions;
        if id in p.sessions {
          assert r.sessions[id] == p.sessions[id];
        }
    }
  }

  /** One more entry keeps the order of the sessions listing every session once. */
  lemma OrderStep(p: Recordings, k: Kind, e: Entry)
    requires forall id :: id in p.order <==> id in p.sessions
    requires NoDuplicates(p.order)
    ensures var r := AddEntry(p, k, e);
      (forall id :: id in r.order <==> id in r.sessions) && NoDuplicates(r.order)
  {
    if k.Segment? && k.id !in p.sessions {
      NoDuplicatesAppend(p.order, k.id);
    }
  }

  /** The simple recordings are the shown files outside sessions, in listing order. */
  lemma {:induction false} ListedSimple(user: string, files: seq<DirEntry>, transcribed: string -> bool)
    ensures ListRecordings(user, files, transcribed).recordings == OfKind(user, files, transcribed, Simple)
    decreases |files|
  {
    if files != [] {
      var front, f := files[..|files| - 1], files[|files| - 1];
      ListedSimple(user, front, transcribed);
      OfKindStep(user, files, transcribed, Simple);
      SimpleStep(ListRecordings(user, front, transcribed), KindOf(user, f.name), EntryOf(f, transcribed));
    }
  }

  /**
    The session `id` is listed exactly when it has a shown segment, and then
    it holds its id, all of its segments in listing order and their summed
    size.
  */
  lemma {:induction false} ListedSession(user: string, files: seq<DirEntry>, transcribed: string -> bool, id: string)
    ensures var r, segs := ListRecordings(user, files, transcribed), OfKind(user, files, transcribed, Segment(id));
      && (id in r.sessions <==> segs != [])
      && (id in r.sessions ==> r.sessions[id] == Session(id, segs, TotalSize(segs)))
    decreases |files|
  {
    if files != [] {
      var front, f := files[..|files| - 1], files[|files| - 1];
      ListedSession(user, front, transcribed, id);
      OfKindStep(user, files, transcribed, Segment(id));
      SessionStep(ListRecordings(user, front, transcribed), KindOf(user, f.name), EntryOf(f, transcribed),
                  id, OfKind(user, front, transcribed, Segment(id)));
    }
  }

  /** The order of the sessions lists every session once. */
  lemma {:induction false} ListedOrder(user: string, files: seq<DirEntry>, transcribed: string -> bool)
    ensures var r := ListRecordings(user, files, transcribed);
      (forall id :: id in r.order <==> id in r.sessions) && NoDuplicates(r.order)
    decreases |files|
  {
    if files != [] {
      var front, f := files[..|files| - 1], files[|files| - 1];
      ListedOrder(user, front, transcribed);
      OrderStep(ListRecordings(user, front, transcribed), KindOf(user, f.name), EntryOf(f, transcribed));
    }
  }

  /**
    Where the session `id` is first seen: the index of the first file that is
    one of its shown segments, or the number of files when none is.
  */
  function FirstSeen(user: string, files: seq<DirEntry>, id: string): (k: nat)
    ensures k <= |files|
    ensures k < |files| ==> KindOf(user, files[k].name) == Segment(id)
    ensures forall j :: 0 <= j < k ==> KindOf(user, files[j].name) != Segment(id)
  {
    if files == [] then 0
    else
      var front := files[..|files| - 1];
      var k := FirstSeen(user, front, id);
      if k < |front| then k
      else if KindOf(user, files[|front|].name) == Segment(id) then |front|
      else |files|
  }

  /**
    The sessions are listed in the order they are first seen: a session is
    listed exactly when some file is one of its segments, and of two listed
    sessions the earlier one's first segment comes earlier in the directory.
  */
  lemma {:induction false} ListedOrderFirstSeen(user: string, files: seq<DirEntry>, transcribed: string -> bool)
    ensures var r := ListRecordings(user, files, transcribed);
      && (forall id :: id in r.sessions <==> FirstSeen(user, files, id) < |files|)
      && (forall i :: 0 <= i < |r.order| ==> FirstSeen(user, files, r.order[i]) < |files|)
      && (forall i, j :: 0 <= i < j < |r.order| ==> FirstSeen(user, files, r.order[i]) < FirstSeen(user, files, r.order[j]))
    decreases |files|
  {
    if files != [] {
      var front, f := files[..|files| - 1], files[|files| - 1];
      var k := KindOf(user, f.name);
      ListedOrderFirstSeen(user, front, transcribed);
      var before, after := id => FirstSeen(user, front, id), id => FirstSeen(user, files, id);
      forall id
        ensures after(id) == if before(id) < |front| then before(id) else if k == Segment(id) then |front| else |files|
      {
      }
      OrderSeenStep(ListRecordings(user, front, transcribed), k, EntryOf(f, transcribed), |front|, before, after);
    }
  }

  /**
    One more entry keeps the sessions in first-seen order, for `before` the
    first-seen positions among the first `n` files and `after` those among
    one file more.
  */
  lemma OrderSeenStep(p: Recordings, k: Kind, e: Entry, n: nat, before: string -> nat, after: string -> nat)
    requires forall id :: id in p.sessions <==> before(id) < n
    requires forall i :: 0 <= i < |p.order| ==> before(p.order[i]) < n
    requires forall i, j :: 0 <= i < j < |p.order| ==> before(p.order[i]) < before(p.order[j])
    requires forall id :: after(id) == if before(id) < n then before(id) else if k == Segment(id) then n else n + 1
    ensures var r := AddEntry(p, k, e);
      && (forall id :: id in r.sessions <==> after(id) < n + 1)
      && (forall i :: 0 <= i < |r.order| ==> after(r.order[i]) < n + 1)
      && (forall i, j :: 0 <= i < j < |r.order| ==> after(r.order[i]) < after(r.order[j]))
  {
    var r := AddEntry(p, k, e);
    if k.Segment? && k.id !in p.sessions {
      assert r.order == p.order + [k.id];
      assert after(k.id) == n;
      forall i | 0 <= i < |p.order| ensures after(r.order[i]) == before(p.order[i]) < n {
        assert r.order[i] == p.order[i];
      }
    } else {
      assert r.order == p.order;
    }
  }

  /**
    What the listing holds, told file by file: the simple recordings are the
    shown files outside sessions, in order; there is a session for exactly
    the ids that have at least one shown segment; each session holds its id,
    all of its segments in listing order and their summed size; and the
    order of the sessions lists each id once.
  */
  lemma ListRecordingsContents(user: string, files: seq<DirEntry>, transcribed: string -> bool)
    ensures var r := ListRecordings(user, files, transcribed);
      && r.recordings == OfKind(user, files, transcribed, Simple)
      && (forall id :: id in r.sessions <==> OfKind(user, files, transcribed, Segment(id)) != [])
      && (forall id :: id in r.sessions ==>
            r.sessions[id] == Session(id, OfKind(user, files, transcribed, Segment(id)),
                                      TotalSize(OfKind(user, files, transcribed, Segment(id)))))
      && (forall id :: id in r.order <==> id in r.sessions)
      && NoDuplicates(r.order)
  {
    ListedSimple(user, files, transcribed);
    ListedOrder(user, files, transcribed);
    forall id
      ensures var r, segs := ListRecordings(user, files, transcribed), OfKind(user, files, transcribed, Segment(id));
        && (id in r.sessions <==> segs != [])
        && (id in r.sessions ==> r.sessions[id] == Session(id, segs, TotalSize(segs)))
    {
      ListedSession(user, files, transcribed, id);
    }
  }

  /** The listing of one more file is that file added to the listing of the files before it. */
  lemma ListRecordingsStep(user: string, files: seq<DirEntry>, transcribed: string -> bool, k: nat)
    requires k < |files|
    ensures ListRecordings(user, files[..k + 1], transcribed)
         == AddFile(ListRecordings(user, files[..k], transcribed), user, files[k], transcribed)
  {
    assert files[..k + 1][..k] == files[..k];
  }

  /**
    A segment of session `id` in the loop of `get_recordings`: the session is
    created empty the first time its id is seen, then the segment is
    appended to it and its total size grows by the segment's size.
  */
  method AddSegment(r: Recordings, id: string, e: Entry) returns (sessions: map<string, Session>, order: seq<string>)
    ensures Recordings(r.recordings, sessions, order) == AddEntry(r, Segment(id), e)
  {
    sessions, order := r.sessions, r.order;
    if id !in sessions {
      sessions := sessions[id := Session(id, [], 0)];
      order := order + [id];
    }
    var s := sessions[id];
    sessions := sessions[id := Session(s.id, s.segments + [e], s.totalSize + e.size)];
    if id !in r.sessions {
      assert [] + [e] == [e];
      assert sessions == r.sessions[id := Session(id, [e], e.size)];
    }
  }

  /**
    One pass of the loop of `get_recordings`: a file shown to the user is
    either added to the simple recordings or, for a session segment,
    appended to its session.
  */
  method ListFile(recordings: seq<Entry>, sessions: map<string, Session>, order: seq<string>,
                  user: string, f: DirEntry, transcribed: string -> bool)
    returns (recordings': seq<Entry>, sessions': map<string, Session>, order': seq<string>)
    ensures Recordings(recordings', sessions', order') == AddFile(Recordings(recordings, sessions, order), user, f, transcribed)
  {
    recordings', sessions', order' := recordings, sessions, order;
    if Shown(user, f.name) {
      var hasTranscription := transcribed(TranscriptionName(f.name));
      var e := Entry(f.name, f.size, hasTranscription);
      if InSession(f.name) {
        var id := SessionId(f.name);
        assert KindOf(user, f.name) == Segment(id);
        sessions', order' := AddSegment(Recordings(recordings, sessions, order), id, e);
      } else {
        recordings' := recordings' + [e];
        assert KindOf(user, f.name) == Simple;
      }
    } else {
      assert KindOf(user, f.name) == Hidden;
    }
  }

  /** `get_recordings`: the files of the directory listed one after the other, in directory order. */
  method GetRecordings(user: string, files: seq<DirEntry>, transcribed: string -> bool) returns (r: Recordings)
    ensures r == ListRecordings(user, files, transcribed)
  {
    var recordings: seq<Entry> := [];
    var sessions: map<string, Session> := map[];
    var order: seq<string> := [];
    var k := 0;
    while k < |files|
      invariant k <= |files|
      invariant Recordings(recordings, sessions, order) == ListRecordings(user, files[..k], transcribed)
      decreases |files| - k
    {
      ListRecordingsStep(user, files, transcribed, k);
      recordings, sessions, order := ListFile(recordings, sessions, order, user, files[k], transcribed);
      k := k + 1;
    }
    assert files[..k] == files;
    r := Recordings(recordings, sessions, order);
  }
}
