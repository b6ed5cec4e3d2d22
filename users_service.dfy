/**
  The streaming upload of the users service: the storage-name allocator and
  the session that reacts to the frames of one inbound stream.

  The session is written twice on purpose: as pure transition functions on a
  `SessionState` value (`NextState`, `CompleteState`, folded over an event
  sequence by `Run`), about which the lemmas speak, and as the class
  `UploadSession` whose methods update the captured variables in place and
  are proved to follow those functions.
*/
module UsersService {
  import opened NodePath
  import opened UploadFileDto

  // ---------------------------------------------------------------------
  // Storage names
  // ---------------------------------------------------------------------

  predicate IsLowerHex(c: char) {
    '0' <= c <= '9' || 'a' <= c <= 'f'
  }

  predicate IsDashPosition(i: int) {
    i == 8 || i == 13 || i == 18 || i == 23
  }

  /**
    The text form of a random (version 4) UUID, section 4.4 of RFC 4122, as
    the uuid package prints it: 32 lower-case hex digits in groups 8-4-4-4-12,
    the version digit `4` and a variant digit among `8`, `9`, `a`, `b`.
  */
  predicate IsUuidV4(s: string) {
    && |s| == 36
    && (forall i :: 0 <= i < 36 && IsDashPosition(i) ==> s[i] == '-')
    && (forall i :: 0 <= i < 36 && !IsDashPosition(i) ==> IsLowerHex(s[i]))
    && s[14] == '4'
    && s[19] in "89ab"
  }

  /** A value the random source may return; the model takes it as an input. */
  type Uuid = s: string | IsUuidV4(s) witness "00000000-0000-4000-8000-000000000000"

  /** A UUID holds neither `.` nor `/`. */
  lemma UuidIsPlain(id: Uuid)
    ensures '.' !in id && '/' !in id
  {
    forall k | 0 <= k < |id| ensures id[k] != '.' && id[k] != '/' {
      if !IsDashPosition(k) { assert IsLowerHex(id[k]); }
    }
  }

  /** `createFileName`: the random id followed by the extension of the caller's name. */
  function CreateFileName(freshId: Uuid, filename: string): string {
    freshId + ExtName(filename)
  }

  /**
    A single path component other than `.` and `..`: joined onto a
    directory, it names an entry inside that directory.
  */
  predicate IsPlainComponent(name: string) {
    name != [] && name != "." && name != ".." && '/' !in name
  }

  /**
    The allocated name starts with the random id and is a plain path
    component: whatever the caller sends, the sink stays in its directory.
  */
  lemma FileNameIsSafe(freshId: Uuid, filename: string)
    ensures |CreateFileName(freshId, filename)| >= 36
    ensures CreateFileName(freshId, filename)[..36] == freshId
    ensures IsPlainComponent(CreateFileName(freshId, filename))
  {
    var e := ExtName(filename);
    ExtNameIsTailOfPath(filename);
    UuidIsPlain(freshId);
    NoSlashInJoin(freshId, e);
    assert |freshId + e| == 36 + |e|;
    assert (freshId + e)[..36] == freshId;
  }

  /** Joining two strings free of `/` gives a string free of `/`. */
  lemma NoSlashInJoin(a: string, b: string)
    requires '/' !in a && '/' !in b
    ensures '/' !in a + b
  {
    forall k | 0 <= k < |a + b| ensures (a + b)[k] != '/' {
      if k < |a| { assert (a + b)[k] == a[k]; } else { assert (a + b)[k] == b[k - |a|]; }
    }
  }

  /** The allocated name has the extension of the caller's name. */
  lemma FileNameKeepsExtension(freshId: Uuid, filename: string)
    ensures ExtName(CreateFileName(freshId, filename)) == ExtName(filename)
  {
    UuidIsPlain(freshId);
    ExtNameOfPlainName(freshId, ExtName(filename));
  }

  /**
    Two allocations give the same name exactly when they drew the same id and
    the callers' names have the same extension: the name depends on the
    caller's input only through its extension, and distinct ids never collide.
  */
  lemma FileNameInjective(id1: Uuid, filename1: string, id2: Uuid, filename2: string)
    ensures CreateFileName(id1, filename1) == CreateFileName(id2, filename2) <==>
              id1 == id2 && ExtName(filename1) == ExtName(filename2)
  {
    var r1, r2 := CreateFileName(id1, filename1), CreateFileName(id2, filename2);
    if r1 == r2 {
      assert id1 == r1[..36] == r2[..36] == id2;
      assert ExtName(filename1) == r1[36..] == r2[36..] == ExtName(filename2);
    }
  }

  /** A name allocated for `a.txt` ends in `.txt`. */
  lemma TextFileName(freshId: Uuid)
    ensures ExtName(CreateFileName(freshId, "a.txt")) == ".txt"
  {
    FileNameKeepsExtension(freshId, "a.txt");
    ExtNameOfTextFile();
  }

  // ---------------------------------------------------------------------
  // The upload session, as values
  // ---------------------------------------------------------------------

  /** The directory the gRPC upload writes into, relative to the working directory. */
  const UploadDir: string := "../uploads/"

  /** The calls the session makes on the file system, in order. */
  datatype FsCall = CreateWriteStream(path: string) | Write(data: seq<bv8>) | Close

  /**
    The state one `uploadFile` call keeps in its closures: whether
    `writeStream` has been assigned (`hasStream`, which stays set once the
    stream is closed) and its path, the allocated name (`''` until the
    first frame), the file-system calls made so far, the replies pushed into
    the subject, and whether the subject has completed (`closed`).
  */
  datatype SessionState = SessionState(
    hasStream: bool,
    newFilename: string,
    sinkPath: string,
    fsCalls: seq<FsCall>,
    replies: seq<UploadStatus>,
    closed: bool)

  /** The state right after subscribing: no stream, empty name, nothing emitted. */
  function Init(): SessionState {
    SessionState(false, "", "", [], [], false)
  }

  /** `subject.next`: a completed subject drops what it is given. */
  function Emit(s: SessionState, status: UploadStatus): SessionState {
    if s.closed then s else s.(replies := s.replies + [status])
  }

  /** Lines 55-58: allocate a name and create the write stream, unless one exists. */
  function EnsureSink(s: SessionState, uploadFile: UploadFile, freshId: Uuid): SessionState {
    if s.hasStream then s
    else
      var name := CreateFileName(freshId, uploadFile.filename);
      s.(hasStream := true, newFilename := name, sinkPath := UploadDir + name,
         fsCalls := s.fsCalls + [CreateWriteStream(UploadDir + name)])
  }

  /** The state once the write stream has been created. */
  lemma OpenedSink(s: SessionState, uploadFile: UploadFile, freshId: Uuid)
    requires !s.hasStream
    ensures var name := CreateFileName(freshId, uploadFile.filename);
      EnsureSink(s, uploadFile, freshId) ==
        SessionState(true, name, UploadDir + name, s.fsCalls + [CreateWriteStream(UploadDir + name)], s.replies, s.closed)
  {
  }

  /** `onNext`: allocate and open on the first frame only, then report `uploading`. */
  function NextState(s: SessionState, uploadFile: UploadFile, freshId: Uuid): SessionState {
    var s1 := EnsureSink(s, uploadFile, freshId);
    Emit(s1, UploadStatus(s1.newFilename, Uploading))
  }

  /** Line 67: `writeStream?.close()`. */
  function CloseSink(s: SessionState): SessionState {
    if s.hasStream then s.(fsCalls := s.fsCalls + [Close]) else s
  }

  /** `onComplete`: close the stream if there is one, report `complete`, complete the subject. */
  function CompleteState(s: SessionState): SessionState {
    var s1 := CloseSink(s);
    Emit(s1, UploadStatus(s1.newFilename, Complete)).(closed := true)
  }

  /**
    What the inbound observable delivers: a frame (with the id the random
    source would draw if asked), completion, or an error. Only `next` and
    `complete` have handlers, so an error reaches no code of the session.
  */
  datatype Event = Frame(uploadFile: UploadFile, freshId: Uuid) | Done | Errored

  /** The handler an event runs: `onNext`, `onComplete`, or none at all for an error. */
  function Step(s: SessionState, e: Event): SessionState {
    match e
    case Frame(f, id) => NextState(s, f, id)
    case Done => CompleteState(s)
    case Errored => s
  }

  /**
    The state after the subscription of lines 77-80 has been handed `events`.
    An RxJS subscriber stops at the first completion or error: the handler
    for that event runs (there is none for an error) and every later
    notification is dropped, so no handler runs after the stream has ended.
  */
  function Run(s: SessionState, events: seq<Event>): SessionState
    decreases |events|
  {
    if events == [] then s
    else if events[0].Frame? then Run(Step(s, events[0]), events[1..])
    else Step(s, events[0])
  }

  /**
    What holds of every session state reachable from `Init`, whatever the
    events:
    - the write stream is created at most once, as the first file-system call,
      at `../uploads/` followed by an allocated name, and every later call is a
      `Close`; no chunk is ever written;
    - before completion every reply is `uploading` with the current name;
    - after completion the last reply is the one `complete` reply and all
      earlier ones are `uploading`; `failed` never appears;
    - all replies of the session carry one and the same name.
  */
  predicate SessionInvariant(s: SessionState) {
    && (!s.hasStream ==> s.newFilename == "" && s.sinkPath == "" && s.fsCalls == [])
    && (s.hasStream ==>
          && IsPlainComponent(s.newFilename)
          && s.sinkPath == UploadDir + s.newFilename
          && |s.fsCalls| > 0
          && s.fsCalls[0] == CreateWriteStream(s.sinkPath)
          && (forall i :: 0 < i < |s.fsCalls| ==> s.fsCalls[i] == Close))
    && (!s.closed ==>
          && (s.replies != [] ==> s.hasStream)
          && (forall i :: 0 <= i < |s.replies| ==> s.replies[i] == UploadStatus(s.newFilename, Uploading)))
    && (s.closed ==>
          && s.replies != []
          && s.replies[|s.replies| - 1].stage == Complete
          && (forall i :: 0 <= i < |s.replies| - 1 ==> s.replies[i].stage == Uploading))
    && (forall i :: 0 <= i < |s.replies| ==> s.replies[i].filename == s.replies[0].filename)
  }

  lemma InitInvariant()
    ensures SessionInvariant(Init())
  {
  }

  lemma NextKeepsInvariant(s: SessionState, uploadFile: UploadFile, freshId: Uuid)
    requires SessionInvariant(s)
    ensures SessionInvariant(NextState(s, uploadFile, freshId))
  {
    if !s.hasStream {
      FileNameIsSafe(freshId, uploadFile.filename);
    }
  }

  lemma CompleteKeepsInvariant(s: SessionState)
    requires SessionInvariant(s)
    ensures SessionInvariant(CompleteState(s))
  {
    var s1 := CloseSink(s);
    if !s.closed {
      assert s1.replies == s.replies;
      var r := CompleteState(s).replies;
      assert r == s.replies + [UploadStatus(s.newFilename, Complete)];
      assert forall i :: 0 <= i < |r| ==> r[i].filename == s.newFilename;
    }
  }

  lemma {:induction false} RunKeepsInvariant(s: SessionState, events: seq<Event>)
    requires SessionInvariant(s)
    ensures SessionInvariant(Run(s, events))
    decreases |events|
  {
    if events != [] {
      match events[0] {
        case Frame(f, id) =>
          NextKeepsInvariant(s, f, id);
          RunKeepsInvariant(Step(s, events[0]), events[1..]);
        case Done => CompleteKeepsInvariant(s);
        case Errored =>
      }
    }
  }

  /**
    Over any sequence of events: the name is allocated and the write stream
    created at most once, no chunk is written, `failed` is never emitted, every
    reply carries the same name, and once the subject has completed its last
    reply is its only `complete` reply.
  */
  lemma {:induction false} AnyEventSequence(events: seq<Event>)
    ensures var s := Run(Init(), events);
      && (forall i, j :: 0 <= i < j < |s.fsCalls| ==> !(s.fsCalls[i].CreateWriteStream? && s.fsCalls[j].CreateWriteStream?))
      && (forall i :: 0 <= i < |s.fsCalls| ==> !s.fsCalls[i].Write?)
      && (forall i :: 0 <= i < |s.replies| ==> s.replies[i].stage != Failed)
      && (forall i, j :: 0 <= i < |s.replies| && 0 <= j < |s.replies| ==> s.replies[i].filename == s.replies[j].filename)
      && (s.closed ==> s.replies != [] && s.replies[|s.replies| - 1].stage == Complete)
      && (forall i :: 0 <= i < |s.replies| - 1 ==> s.replies[i].stage != Complete)
  {
    InitInvariant();
    RunKeepsInvariant(Init(), events);
    InvariantConsequences(Run(Init(), events));
  }

  /** What the invariant says about one state, in the terms of `AnyEventSequence`. */
  lemma InvariantConsequences(s: SessionState)
    requires SessionInvariant(s)
    ensures forall i, j :: 0 <= i < j < |s.fsCalls| ==> !(s.fsCalls[i].CreateWriteStream? && s.fsCalls[j].CreateWriteStream?)
    ensures forall i :: 0 <= i < |s.fsCalls| ==> !s.fsCalls[i].Write?
    ensures forall i :: 0 <= i < |s.replies| ==> s.replies[i].stage != Failed
    ensures forall i, j :: 0 <= i < |s.replies| && 0 <= j < |s.replies| ==> s.replies[i].filename == s.replies[j].filename
    ensures s.closed ==> s.replies != [] && s.replies[|s.replies| - 1].stage == Complete
    ensures forall i :: 0 <= i < |s.replies| - 1 ==> s.replies[i].stage != Complete
  {
  }

  /** Once the stream is open, later events never change the name or the sink path. */
  lemma {:induction false} NameFixedOnceOpened(s: SessionState, events: seq<Event>)
    requires s.hasStream
    ensures Run(s, events).hasStream
    ensures Run(s, events).newFilename == s.newFilename
    ensures Run(s, events).sinkPath == s.sinkPath
    decreases |events|
  {
    if events != [] && events[0].Frame? {
      NameFixedOnceOpened(Step(s, events[0]), events[1..]);
    }
  }

  /** Once the subject has completed, later events emit nothing. */
  lemma {:induction false} SilentAfterComplete(s: SessionState, events: seq<Event>)
    requires s.closed
    ensures Run(s, events).closed
    ensures Run(s, events).replies == s.replies
    decreases |events|
  {
    if events != [] && events[0].Frame? {
      SilentAfterComplete(Step(s, events[0]), events[1..]);
    }
  }

  /**
    The write stream is closed at most once and only after it was created:
    over any events, the file-system calls are none, the creation alone, or
    the creation followed by one `Close`.
  */
  lemma {:induction false} AtMostOneClose(events: seq<Event>)
    ensures var s := Run(Init(), events);
      || s.fsCalls == []
      || s.fsCalls == [CreateWriteStream(s.sinkPath)]
      || s.fsCalls == [CreateWriteStream(s.sinkPath), Close]
  {
    InitInvariant();
    RunKeepsInvariant(Init(), events);
    CallsBounded(Init(), events);
    CallsShape(Run(Init(), events));
  }

  /** Under the invariant, at most two file-system calls are a creation and then a `Close`. */
  lemma CallsShape(s: SessionState)
    requires SessionInvariant(s) && |s.fsCalls| <= 2
    ensures || s.fsCalls == []
            || s.fsCalls == [CreateWriteStream(s.sinkPath)]
            || s.fsCalls == [CreateWriteStream(s.sinkPath), Close]
  {
    var c := s.fsCalls;
    if |c| == 1 {
      assert c == [c[0]];
    } else if |c| == 2 {
      assert c[1] == Close;
      assert c == [c[0], c[1]];
    }
  }

  /** While the subject is open at most the creation has happened, and one event adds at most the `Close`. */
  lemma {:induction false} CallsBounded(s: SessionState, events: seq<Event>)
    requires SessionInvariant(s) && !s.closed && |s.fsCalls| <= 1
    ensures |Run(s, events).fsCalls| <= 2
    decreases |events|
  {
    if events != [] && events[0].Frame? {
      NextKeepsInvariant(s, events[0].uploadFile, events[0].freshId);
      CallsBounded(Step(s, events[0]), events[1..]);
    }
  }

  /** Once the inbound stream has completed or failed, nothing that follows it reaches the session. */
  lemma EndOfStream(s: SessionState, e: Event, rest: seq<Event>)
    requires !e.Frame?
    ensures Run(s, [e] + rest) == Step(s, e)
  {
    assert ([e] + rest)[0] == e;
  }

  /**
    Frames after a completion or an error create no stream and send no
    reply, and a completion after an error is not reported.
  */
  lemma LateEventsDropped(f: UploadFile, id: Uuid)
    ensures Run(Init(), [Done, Frame(f, id)]).fsCalls == []
    ensures Run(Init(), [Errored, Frame(f, id)]).replies == []
    ensures Run(Init(), [Errored, Done]).replies == []
  {
    EndOfStream(Init(), Done, [Frame(f, id)]);
    EndOfStream(Init(), Errored, [Frame(f, id)]);
    EndOfStream(Init(), Errored, [Done]);
  }

  /** Running frames and then more events is running the frames, then the rest. */
  lemma {:induction false} RunAppend(s: SessionState, a: seq<Event>, b: seq<Event>)
    requires forall i :: 0 <= i < |a| ==> a[i].Frame?
    ensures Run(s, a + b) == Run(Run(s, a), b)
    decreases |a|
  {
    if a != [] {
      assert (a + b)[0] == a[0] && (a + b)[1..] == a[1..] + b;
      RunAppend(Step(s, a[0]), a[1..], b);
    } else {
      assert a + b == b;
    }
  }

  /** Every event of `FrameEvents` is a frame. */
  lemma {:induction false} OnlyFrames(frames: seq<UploadFile>, ids: seq<Uuid>)
    requires |ids| == |frames|
    ensures forall i :: 0 <= i < |FrameEvents(frames, ids)| ==> FrameEvents(frames, ids)[i].Frame?
    decreases |frames|
  {
    if frames != [] {
      var events := FrameEvents(frames, ids);
      assert events[1..] == FrameEvents(frames[1..], ids[1..]);
      OnlyFrames(frames[1..], ids[1..]);
      forall i | 0 < i < |events| ensures events[i].Frame? {
        assert events[i] == events[1..][i - 1];
      }
    }
  }

  /** The frames of a stream, each paired with the id the random source would draw while it is handled. */
  function FrameEvents(frames: seq<UploadFile>, ids: seq<Uuid>): (events: seq<Event>)
    requires |ids| == |frames|
    ensures |events| == |frames|
  {
    if frames == [] then [] else [Frame(frames[0], ids[0])] + FrameEvents(frames[1..], ids[1..])
  }

  /** `n` copies of the `uploading` reply for `name`. */
  function Uploads(name: string, n: nat): (r: seq<UploadStatus>)
    ensures |r| == n
    ensures forall i :: 0 <= i < n ==> r[i] == UploadStatus(name, Uploading)
  {
    if n == 0 then [] else [UploadStatus(name, Uploading)] + Uploads(name, n - 1)
  }

  /** The first frame allocates the name, creates the write stream and reports `uploading`. */
  lemma FirstFrame(uploadFile: UploadFile, freshId: Uuid)
    ensures var name := CreateFileName(freshId, uploadFile.filename);
      NextState(Init(), uploadFile, freshId) ==
        SessionState(true, name, UploadDir + name, [CreateWriteStream(UploadDir + name)],
                     [UploadStatus(name, Uploading)], false)
  {
  }

  /** A later frame only reports `uploading` with the name already allocated. */
  lemma LaterFrame(s: SessionState, uploadFile: UploadFile, freshId: Uuid)
    requires s.hasStream && !s.closed
    ensures NextState(s, uploadFile, freshId) == s.(replies := s.replies + [UploadStatus(s.newFilename, Uploading)])
  {
  }

  /** Completion of an open session closes the stream, reports `complete` and completes the subject. */
  lemma CompleteOpen(s: SessionState)
    requires s.hasStream && !s.closed
    ensures CompleteState(s) ==
      s.(fsCalls := s.fsCalls + [Close], replies := s.replies + [UploadStatus(s.newFilename, Complete)], closed := true)
  {
  }

  /** On an open session, each further frame appends one `uploading` reply and changes nothing else. */
  lemma {:induction false} FramesOnOpenSession(s: SessionState, frames: seq<UploadFile>, ids: seq<Uuid>)
    requires s.hasStream && !s.closed
    requires |ids| == |frames|
    ensures Run(s, FrameEvents(frames, ids)) == s.(replies := s.replies + Uploads(s.newFilename, |frames|))
    decreases |frames|
  {
    if frames != [] {
      var events := FrameEvents(frames, ids);
      var s1 := NextState(s, frames[0], ids[0]);
      LaterFrame(s, frames[0], ids[0]);
      assert events[0] == Frame(frames[0], ids[0]);
      assert events[1..] == FrameEvents(frames[1..], ids[1..]);
      FramesOnOpenSession(s1, frames[1..], ids[1..]);
      assert Uploads(s.newFilename, |frames|) == [UploadStatus(s.newFilename, Uploading)] + Uploads(s.newFilename, |frames| - 1);
      assert s1.replies + Uploads(s.newFilename, |frames| - 1) == s.replies + Uploads(s.newFilename, |frames|);
    }
  }

  /** A frame is handled and the events after it are run. */
  lemma RunCons(s: SessionState, e: Event, events: seq<Event>)
    requires e.Frame?
    ensures Run(s, [e] + events) == Run(Step(s, e), events)
  {
    assert ([e] + events)[0] == e && ([e] + events)[1..] == events;
  }

  lemma ListOfTwo<T>(a: T, b: T)
    ensures [a] + [b] == [a, b]
  {
  }

  lemma ListOfThree<T>(a: T, b: T, c: T)
    ensures [a] + [b] + [c] == [a, b, c]
  {
  }

  /** A frame followed by more events: `onNext` runs first. */
  lemma RunFrameFirst(s: SessionState, uploadFile: UploadFile, freshId: Uuid, events: seq<Event>)
    ensures Run(s, [Frame(uploadFile, freshId)] + events) == Run(NextState(s, uploadFile, freshId), events)
  {
    RunCons(s, Frame(uploadFile, freshId), events);
  }

  /** Completion as the only event is one call of `onComplete`. */
  lemma RunDoneOnly(s: SessionState)
    ensures Run(s, [Done]) == CompleteState(s)
  {
    assert [Done][0] == Done;
  }

  /**
    A stream that completes with no frame: no allocation, no file, one
    `complete` reply for `''`, whatever arrives afterwards.
  */
  lemma EmptyUpload(rest: seq<Event>)
    ensures Run(Init(), [Done] + rest) == SessionState(false, "", "", [], [UploadStatus("", Complete)], true)
  {
    EndOfStream(Init(), Done, rest);
  }

  /**
    N > 0 frames: the name is allocated from the first frame's name and the
    first id, the write stream at `../uploads/<name>` is created and nothing
    else touches the file system, and there is one `uploading` reply per frame.
  */
  lemma {:induction false} FramesFromInit(frames: seq<UploadFile>, ids: seq<Uuid>)
    requires |ids| == |frames| && frames != []
    ensures var name := CreateFileName(ids[0], frames[0].filename);
      Run(Init(), FrameEvents(frames, ids)) ==
        SessionState(true, name, UploadDir + name, [CreateWriteStream(UploadDir + name)],
                     Uploads(name, |frames|), false)
  {
    var name := CreateFileName(ids[0], frames[0].filename);
    var e := Frame(frames[0], ids[0]);
    var rest := FrameEvents(frames[1..], ids[1..]);
    var s1 := Step(Init(), e);
    FirstFrame(frames[0], ids[0]);
    assert FrameEvents(frames, ids) == [e] + rest;
    RunCons(Init(), e, rest);
    FramesOnOpenSession(s1, frames[1..], ids[1..]);
    assert [UploadStatus(name, Uploading)] + Uploads(name, |frames| - 1) == Uploads(name, |frames|);
  }

  /**
    N > 0 frames followed by completion: the write stream is created once and
    then closed, and nothing else touches the file system; the replies are N
    `uploading` replies and then one `complete` reply, all for the name
    allocated from the first frame; the subject is completed. Whatever the
    inbound stream would deliver afterwards changes nothing.
  */
  lemma {:induction false} UploadThenComplete(frames: seq<UploadFile>, ids: seq<Uuid>, rest: seq<Event>)
    requires |ids| == |frames| && frames != []
    ensures var name := CreateFileName(ids[0], frames[0].filename);
      Run(Init(), FrameEvents(frames, ids) + ([Done] + rest)) ==
        SessionState(true, name, UploadDir + name, [CreateWriteStream(UploadDir + name), Close],
                     Uploads(name, |frames|) + [UploadStatus(name, Complete)], true)
  {
    var events := FrameEvents(frames, ids);
    FramesFromInit(frames, ids);
    OnlyFrames(frames, ids);
    RunAppend(Init(), events, [Done] + rest);
    EndOfStream(Run(Init(), events), Done, rest);
    CompleteOpen(Run(Init(), events));
  }

  /**
    N > 0 frames followed by an error of the inbound stream: the write stream
    stays open (no `Close`), no `failed` or `complete` reply is emitted, and
    the subject never completes, whatever would follow the error.
  */
  lemma {:induction false} UploadThenError(frames: seq<UploadFile>, ids: seq<Uuid>, rest: seq<Event>)
    requires |ids| == |frames| && frames != []
    ensures var name := CreateFileName(ids[0], frames[0].filename);
      Run(Init(), FrameEvents(frames, ids) + ([Errored] + rest)) ==
        SessionState(true, name, UploadDir + name, [CreateWriteStream(UploadDir + name)],
                     Uploads(name, |frames|), false)
  {
    var events := FrameEvents(frames, ids);
    FramesFromInit(frames, ids);
    OnlyFrames(frames, ids);
    RunAppend(Init(), events, [Errored] + rest);
    EndOfStream(Run(Init(), events), Errored, rest);
  }

  /** Two frames of one file then completion, event by event. */
  lemma TwoFramesThenComplete(filename: string, id1: Uuid, id2: Uuid, c1: seq<bv8>, c2: seq<bv8>)
    ensures var name := CreateFileName(id1, filename);
      Run(Init(), [Frame(UploadFile(filename, c1), id1), Frame(UploadFile(filename, c2), id2), Done]) ==
        SessionState(true, name, UploadDir + name, [CreateWriteStream(UploadDir + name), Close],
                     [UploadStatus(name, Uploading), UploadStatus(name, Uploading), UploadStatus(name, Complete)], true)
  {
    var f1, f2 := UploadFile(filename, c1), UploadFile(filename, c2);
    var s1 := NextState(Init(), f1, id1);
    var s2 := NextState(s1, f2, id2);
    assert [Frame(f1, id1), Frame(f2, id2), Done] == [Frame(f1, id1)] + ([Frame(f2, id2)] + [Done]);
    RunFrameFirst(Init(), f1, id1, [Frame(f2, id2)] + [Done]);
    RunFrameFirst(s1, f2, id2, [Done]);
    RunDoneOnly(s2);
    FirstFrame(f1, id1);
    LaterFrame(s1, f2, id2);
    CompleteOpen(s2);
    var name := CreateFileName(id1, filename);
    var up := UploadStatus(name, Uploading);
    assert s2 == SessionState(true, name, UploadDir + name, [CreateWriteStream(UploadDir + name)], [up] + [up], false);
    ListOfTwo(CreateWriteStream(UploadDir + name), Close);
    ListOfThree(up, up, UploadStatus(name, Complete));
  }

  /**
    Two frames of `a.txt` then completion: replies `uploading`, `uploading`,
    `complete` for one name ending in `.txt`; the write stream is created and
    closed and receives no bytes.
  */
  lemma TwoFrameUpload(id1: Uuid, id2: Uuid, c1: seq<bv8>, c2: seq<bv8>)
    ensures var name := CreateFileName(id1, "a.txt");
      && ExtName(name) == ".txt"
      && Run(Init(), [Frame(UploadFile("a.txt", c1), id1), Frame(UploadFile("a.txt", c2), id2), Done]) ==
           SessionState(true, name, UploadDir + name, [CreateWriteStream(UploadDir + name), Close],
                        [UploadStatus(name, Uploading), UploadStatus(name, Uploading), UploadStatus(name, Complete)], true)
  {
    TwoFramesThenComplete("a.txt", id1, id2, c1, c2);
    TextFileName(id1);
  }

  // ---------------------------------------------------------------------
  // The upload session, as the object the closures update in place
  // ---------------------------------------------------------------------

  /**
    One call of `uploadFile`: the variables its `onNext` and `onComplete`
    closures capture, and the subject they push replies into.
  */
  class UploadSession {
    var hasStream: bool
    var newFilename: string
    var sinkPath: string
    var fsCalls: seq<FsCall>
    var replies: seq<UploadStatus>
    var closed: bool

    function State(): SessionState
      reads this
    {
      SessionState(hasStream, newFilename, sinkPath, fsCalls, replies, closed)
    }

    ghost predicate Valid()
      reads this
    {
      SessionInvariant(State())
    }

    constructor ()
      ensures Valid()
      ensures State() == Init()
    {
      hasStream, newFilename, sinkPath := false, "", "";
      fsCalls, replies, closed := [], [], false;
    }

    /** `subject.next(status)`. */
    method SubjectNext(status: UploadStatus)
      modifies this`replies
      ensures State() == Emit(old(State()), status)
    {
      if !closed {
        replies := replies + [status];
      }
    }

    /** Lines 55-58: allocate the name and create the write stream at `../uploads/<name>`. */
    method OpenSink(uploadFile: UploadFile, freshId: Uuid)
      requires !hasStream
      modifies this
      ensures State() == EnsureSink(old(State()), uploadFile, freshId)
    {
      var name := CreateFileName(freshId, uploadFile.filename);
      OpenedSink(State(), uploadFile, freshId);
      fsCalls := fsCalls + [CreateWriteStream(UploadDir + name)];
      newFilename, sinkPath, hasStream := name, UploadDir + name, true;
    }

    /** `onNext`: the id is the one `uuidv4()` would return if it were called now. */
    method OnNext(uploadFile: UploadFile, freshId: Uuid)
      requires Valid()
      modifies this
      ensures Valid()
      ensures State() == NextState(old(State()), uploadFile, freshId)
      ensures old(hasStream) ==> newFilename == old(newFilename) && sinkPath == old(sinkPath) && fsCalls == old(fsCalls)
      ensures !old(closed) ==> replies == old(replies) + [UploadStatus(newFilename, Uploading)]
    {
      if !hasStream {
        OpenSink(uploadFile, freshId);
      }
      SubjectNext(UploadStatus(newFilename, Uploading));
      NextKeepsInvariant(old(State()), uploadFile, freshId);
    }

    /** `onComplete`. */
    method OnComplete()
      requires Valid()
      modifies this
      ensures Valid()
      ensures State() == CompleteState(old(State()))
      ensures fsCalls == old(fsCalls) + (if old(hasStream) then [Close] else [])
      ensures !old(closed) ==> replies == old(replies) + [UploadStatus(newFilename, Complete)]
      ensures closed
    {
      if hasStream {
        fsCalls := fsCalls + [Close];
      }
      SubjectNext(UploadStatus(newFilename, Complete));
      closed := true;
      CompleteKeepsInvariant(old(State()));
    }
  }
}
