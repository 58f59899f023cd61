/** The remote-object handles of the RED Brick client: the attach / detach / release
    lifecycle of REDObject with its releaser, _attach_or_release, the refresh of each
    kind of object, the string and file transfers and the asynchronous file transfers. */
module Objects {
  import opened Errors
  import opened Transport
  import opened Chunks
  import opened Sessions
  import opened Transfers

  /** The REDObject subclasses; AttacherKind is REDFileOrPipeAttacher. */
  datatype Kind = StringKind | ListKind | FileKind | DirectoryKind | ProcessKind | ProgramKind | AttacherKind

  /** The class REDObject._subclasses names for a wrapper. */
  function KindOf(w: Wrapper): (k: Kind)
    ensures k != FileKind
    ensures k == AttacherKind <==> w == FileOrPipeWrapper
  {
    match w
    case StringWrapper => StringKind
    case ListWrapper => ListKind
    case FileOrPipeWrapper => AttacherKind
    case DirectoryWrapper => DirectoryKind
    case ProcessWrapper => ProcessKind
    case ProgramWrapper => ProgramKind
  }

  /** The file type the server reports for a pipe (FILE_TYPE_PIPE of the binding). */
  const FILE_TYPE_PIPE: nat := 8

  /** str() of None: the text whose character codes make the purge cookie of a
      program without a known identifier. */
  const NONE_TEXT: seq<byte> := [78, 111, 110, 101]

  /** The push-events a kind of handle listens to, in the order it registers them. */
  function EventsOf(k: Kind): (es: seq<Event>)
    ensures |es| <= 2
    ensures |es| == 2 ==> es[0] != es[1]
    ensures (k == FileKind || k == ProcessKind || k == ProgramKind) <==> |es| > 0
  {
    match k
    case FileKind => [AsyncFileWrite, AsyncFileRead]
    case ProcessKind => [ProcessStateChanged]
    case ProgramKind => [ProgramSchedulerStateChanged, ProgramProcessSpawned]
    case _ => []
  }

  /** REDObjectReleaser: the release the finalisation of a handle makes. */
  datatype Releaser = Releaser(objectId: nat, armed: bool)

  /** REDObjectReleaser.release: the calls it makes when the handle is reclaimed.
      A disarmed releaser, or one whose session has expired, makes none. */
  function Fire(r: Releaser, sessionId: Option<nat>): (calls: seq<Call>)
    ensures !r.armed || sessionId.None? ==> calls == []
    ensures r.armed && sessionId.Some? ==> calls == [ReleaseObjectUnchecked(r.objectId, sessionId.value)]
  {
    if r.armed then Released([r.objectId], sessionId) else []
  }

  /** WriteAsyncData: the data of the running asynchronous write and how much of it
      was sent so far. */
  datatype WriteJob = WriteJob(data: seq<byte>, length: nat, written: nat)

  /** ReadAsyncData: what the running asynchronous read received, and its limit. */
  datatype ReadJob = ReadJob(data: seq<byte>, maxLength: nat)

  /** The Qt signals the asynchronous transfers emit; a Done signal carries the
      error, or None on success. */
  datatype Signal =
    | WriteStatus(written: nat, length: nat)
    | WriteDone(error: Option<Failure>)
    | ReadStatus(received: nat, maxLength: nat)
    | ReadDone(data: seq<byte>, error: Option<Failure>)

  function IdList(id: Option<nat>): (ids: seq<nat>)
    ensures id.None? <==> ids == []
  {
    if id.None? then [] else [id.value]
  }

  /** No release call was made from position n of the call log on. */
  ghost predicate NoReleasesSince(calls: seq<Call>, n: nat)
  {
    forall i :: n <= i < |calls| ==> !calls[i].ReleaseObjectUnchecked?
  }

  lemma NoReleasesExtend(a: seq<Call>, b: seq<Call>, n: nat)
    requires a <= b && NoReleasesSince(a, n) && NoReleasesSince(b, |a|)
    ensures NoReleasesSince(b, n)
  {
    forall i | n <= i < |b| ensures !b[i].ReleaseObjectUnchecked? {
      if i < |a| {
        assert b[i] == a[i];
      }
    }
  }

  /** One call that is not a release keeps the log free of releases after its start. */
  lemma OneCallReleasesNothing(calls: seq<Call>, c: Call)
    requires !c.ReleaseObjectUnchecked?
    ensures NoReleasesSince(calls + [c], |calls|)
  {
  }

  /** A stretch of calls without release calls releases nothing. */
  lemma {:induction false} NoReleaseOccurs(s: seq<Call>, id: nat, sid: nat)
    requires forall i :: 0 <= i < |s| ==> !s[i].ReleaseObjectUnchecked?
    ensures Occurrences(s, ReleaseObjectUnchecked(id, sid)) == 0
  {
    if s != [] {
      NoReleaseOccurs(s[1..], id, sid);
    }
  }

  /** The call log ends with suffix. */
  /** The log's last call is c. */
  ghost predicate LastCall(calls: seq<Call>, c: Call)
  {
    |calls| > 0 && calls[|calls| - 1] == c
  }

  ghost predicate EndsWith(calls: seq<Call>, suffix: seq<Call>)
  {
    |suffix| <= |calls| && calls[|calls| - |suffix|..] == suffix
  }

  /** From position n on, the log holds calls without any release, then releases:
      the release calls come last. */
  ghost predicate ReleasesLast(calls: seq<Call>, n: nat, releases: seq<Call>)
  {
    n + |releases| <= |calls| && calls[|calls| - |releases|..] == releases &&
    NoReleasesSince(calls[..|calls| - |releases|], n)
  }

  lemma EndsWithAppend(calls: seq<Call>, suffix: seq<Call>)
    ensures EndsWith(calls + suffix, suffix)
  {
    assert (calls + suffix)[|calls + suffix| - |suffix|..] == suffix;
  }

  /** The reply a session-bound request gets: Lost when there is no session id. */
  function BoundReply(sessionId: Option<nat>, replies: seq<Reply>): Reply
  {
    if sessionId.None? then Lost else Head(replies)
  }

  /** The handle is attached to id. */
  ghost predicate Holds(h: Option<Handle>, id: nat)
    reads if h.Some? then {h.value} else {}
  {
    h.Some? && h.value.objectId == Some(id)
  }

  /** What the server told about an object: the fields the update of its kind
      fills in, each None until then. A kind only ever sets its own fields. */
  datatype Details = Details(
    data: Option<seq<byte>>,                 // REDString
    items: Option<seq<Handle>>,              // REDList
    fileType: Option<nat>,                   // REDFileBase
    name: Option<Handle>,                    // REDFileBase and REDDirectory
    entries: Option<seq<(Handle, nat)>>,     // REDDirectory: name handle and type of each entry
    executable: Option<Handle>,              // REDProcess and REDProgram
    arguments: Option<Handle>,
    environment: Option<Handle>,
    workingDirectory: Option<Handle>,
    stdin: Option<Handle>,                   // REDProcess
    stdout: Option<Handle>,
    stderr: Option<Handle>,
    identity: Option<(nat, nat, nat)>,       // pid, uid, gid
    state: Option<(nat, nat, nat)>,          // state, timestamp, exit code
    identifier: Option<Handle>,              // REDProgram
    rootDirectory: Option<Handle>)

  const UNKNOWN: Details :=
    Details(None, None, None, None, None, None, None, None, None, None, None, None, None, None, None, None)

  /** A REDObject of some kind: its object id, releaser and callback cookies, the
      fields its update fills in, and the asynchronous transfers of a file. */
  class Handle {
    const session: Session
    const kind: Kind
    var objectId: Option<nat>
    var releaser: Option<Releaser>
    var cookies: seq<nat>
    var details: Details
    var writeJob: Option<WriteJob>
    var readJob: Option<ReadJob>
    var signals: seq<Signal>

    /** A handle holds a releaser exactly while it is attached, armed for its id; the
        attacher is never left attached; a write job knows its length. */
    ghost predicate Valid()
      reads this`objectId, this`releaser, this`writeJob
    {
      (objectId.Some? <==> releaser.Some?) &&
      (objectId.Some? ==> releaser.value == Releaser(objectId.value, true)) &&
      (kind == AttacherKind ==> objectId.None?) &&
      (writeJob.Some? ==> writeJob.value.length == |writeJob.value.data|)
    }

    /** Nothing the server told is known, no callback is registered and a file has
        no asynchronous transfer. */
    ghost predicate Cleared()
      reads this`cookies, this`details, this`writeJob, this`readJob
    {
      cookies == [] && details == UNKNOWN && (kind == FileKind ==> writeJob.None? && readJob.None?)
    }

    constructor (session: Session, kind: Kind)
      ensures this.session == session && this.kind == kind
      ensures objectId.None? && releaser.None? && Cleared() && signals == []
      ensures writeJob.None? && readJob.None?
      ensures Valid()
    {
      this.session := session;
      this.kind := kind;
      objectId := None;
      releaser := None;
      cookies := [];
      details := UNKNOWN;
      writeJob := None;
      readJob := None;
      signals := [];
    }

    /** _initialize of the kind: forget everything the server told about it; a file
        also drops its asynchronous transfers. */
    method Initialize()
      modifies this`cookies, this`details, this`writeJob, this`readJob
      ensures Cleared()
      ensures kind != FileKind ==> writeJob == old(writeJob) && readJob == old(readJob)
    {
      cookies := [];
      details := UNKNOWN;
      if kind == FileKind {
        writeJob, readJob := None, None;
      }
    }

    /** _attach_callbacks: one fresh cookie per event of the kind, each registering a
        live listener owned by this handle. */
    method AttachCallbacks()
      modifies this`cookies, session.brick`table, session.brick`nextCookie,
               session.brick`subscribed, session.brick`registrations
      ensures |cookies| == |EventsOf(kind)|
      ensures forall i :: 0 <= i < |cookies| ==>
                old(session.brick.nextCookie) <= cookies[i] < session.brick.nextCookie
      ensures forall i :: 0 <= i < |cookies| ==>
                EventsOf(kind)[i] in session.brick.table &&
                Entry(cookies[i], Listener(this, true)) in session.brick.table[EventsOf(kind)[i]]
    {
      var brick := session.brick;
      var listener := Listener(this, true);
      match kind {
        case FileKind =>
          var w := brick.AddCallback(AsyncFileWrite, listener);
          var r := brick.AddCallback(AsyncFileRead, listener);
          cookies := [w, r];
        case ProcessKind =>
          var c := brick.AddCallback(ProcessStateChanged, listener);
          cookies := [c];
        case ProgramKind =>
          var s := brick.AddCallback(ProgramSchedulerStateChanged, listener);
          var p := brick.AddCallback(ProgramProcessSpawned, listener);
          cookies := [s, p];
        case _ =>
          cookies := [];
      }
    }

    /** _detach_callbacks: none of the handle's cookies is left in the table. */
    method DetachCallbacks()
      modifies this`cookies, session.brick`table
      ensures cookies == []
      ensures session.brick.table.Keys == old(session.brick.table).Keys
      ensures forall i :: 0 <= i < |old(cookies)| && i < |EventsOf(kind)| && EventsOf(kind)[i] in session.brick.table ==>
                forall x :: x in session.brick.table[EventsOf(kind)[i]] ==> x.cookie != old(cookies)[i]
    {
      var brick := session.brick;
      var events := EventsOf(kind);
      if 0 < |events| && 0 < |cookies| {
        brick.RemoveCallback(events[0], cookies[0]);
      }
      if 1 < |events| && 1 < |cookies| {
        brick.RemoveCallback(events[1], cookies[1]);
      }
      cookies := [];
    }

    /** Every event of the kind has a live listener of this handle under the
        matching cookie. */
    ghost predicate Registered()
      reads this`cookies, session.brick`table
    {
      |cookies| == |EventsOf(kind)| &&
      forall i :: 0 <= i < |cookies| ==>
        EventsOf(kind)[i] in session.brick.table &&
        Entry(cookies[i], Listener(this, true)) in session.brick.table[EventsOf(kind)[i]]
    }

    /** None of the given cookies of the kind's events is left in the table, whose
        events are those of before. */
    ghost predicate Unregistered(gone: seq<nat>, before: map<Event, seq<Entry>>)
      reads session.brick`table
    {
      session.brick.table.Keys == before.Keys &&
      forall i :: 0 <= i < |gone| && i < |EventsOf(kind)| && EventsOf(kind)[i] in session.brick.table ==>
        forall x :: x in session.brick.table[EventsOf(kind)[i]] ==> x.cookie != gone[i]
    }

    /** detach: an unattached handle raises; otherwise its callbacks go, its releaser
        is disarmed and dropped, its fields are reset and its id is handed back. */
    method Detach() returns (r: Result<nat>)
      requires Valid()
      modifies this`objectId, this`releaser, this`cookies, this`details, this`writeJob, this`readJob,
               session.brick`table
      ensures Valid()
      ensures old(objectId).None? ==>
                r == Err(RuntimeError(CannotDetach)) &&
                unchanged(this) && session.brick.table == old(session.brick.table)
      ensures old(objectId).Some? ==>
                r == Ok(old(objectId).value) && objectId.None? && releaser.None? && Cleared()
      ensures old(objectId).Some? ==> Unregistered(old(cookies), old(session.brick.table))
    {
      if objectId.None? {
        return Err(RuntimeError(CannotDetach));
      }
      DetachCallbacks();
      releaser := None;
      var id := objectId.value;
      objectId := None;
      Initialize();
      r := Ok(id);
    }

    /** release: a no-op on an unattached handle; otherwise detach, then one
        best-effort release call while the session has an id. */
    method Release()
      requires Valid()
      modifies this`objectId, this`releaser, this`cookies, this`details, this`writeJob, this`readJob,
               session.brick`table, session.brick`calls
      ensures Valid() && objectId.None? && releaser.None?
      ensures session.brick.calls == old(session.brick.calls) + Released(IdList(old(objectId)), session.sessionId)
      ensures old(objectId).None? ==> unchanged(this) && session.brick.table == old(session.brick.table)
      ensures old(objectId).Some? ==> Cleared()
      ensures old(objectId).Some? ==> Unregistered(old(cookies), old(session.brick.table))
    {
      if objectId.None? {
        return;
      }
      var r := Detach();
      session.ReleaseUnchecked(r.value);
    }

    /** The handle became unreachable: an armed releaser releases its id, and every
        listener it owns is dead from now on. */
    method Finalize()
      requires Valid()
      modifies session.brick`table, session.brick`calls
      ensures session.brick.calls ==
              old(session.brick.calls) + (if releaser.Some? then Fire(releaser.value, session.sessionId) else [])
      ensures session.brick.table.Keys == old(session.brick.table).Keys
      ensures forall e :: e in session.brick.table ==> session.brick.table[e] == Killed(old(session.brick.table)[e], this)
    {
      if releaser.Some? && releaser.value.armed {
        session.ReleaseUnchecked(releaser.value.objectId);
      }
      session.brick.Collect(this);
    }

    /** attach without update: release the current object, arm a releaser for id
        and register the callbacks. The attacher raises before any call. */
    method Bind(id: nat) returns (o: Outcome)
      requires Valid()
      modifies this`objectId, this`releaser, this`cookies, this`details, this`writeJob, this`readJob,
               session.brick`table, session.brick`nextCookie, session.brick`subscribed,
               session.brick`registrations, session.brick`calls
      ensures Valid()
      ensures session.brick.calls == old(session.brick.calls) + Released(IdList(old(objectId)), session.sessionId)
      ensures kind == AttacherKind ==> o == Fail(TypeError(UnboundAttach)) && objectId.None?
      ensures kind != AttacherKind ==> o == Pass && objectId == Some(id) && Registered()
    {
      Release();
      if kind == AttacherKind {
        return Fail(TypeError(UnboundAttach));
      }
      releaser := Some(Releaser(id, true));
      objectId := Some(id);
      AttachCallbacks();
      o := Pass;
    }

    /** attach: bind to id and, if asked and bound, update. */
    method Attach(id: nat, update: bool) returns (o: Outcome)
      requires Valid()
      modifies this, session.brick
      decreases |session.brick.Stream()|, 4
      ensures Valid()
      ensures |session.brick.Stream()| <= |old(session.brick.Stream())|
      ensures old(session.brick.calls) + Released(IdList(old(objectId)), session.sessionId) <= session.brick.calls
      ensures kind == AttacherKind ==>
                o == Fail(TypeError(UnboundAttach)) && objectId.None? &&
                session.brick.calls == old(session.brick.calls) + Released(IdList(old(objectId)), session.sessionId)
      ensures kind != AttacherKind ==> objectId == Some(id)
      ensures kind != AttacherKind && !update ==> o == Pass && session.brick.script == old(session.brick.script) && Registered()
      ensures o.Pass? || kind == StringKind ==>
                NoReleasesSince(session.brick.calls, |old(session.brick.calls)| + |Released(IdList(old(objectId)), session.sessionId)|)
    {
      o := Bind(id);
      if o.Pass? && update {
        o := Refresh();
      }
    }

    /** update, by kind. */
    method Refresh() returns (o: Outcome)
      requires Valid() && kind != AttacherKind
      modifies this, session.brick
      decreases |session.brick.Stream()|, 3
      ensures Valid()
      ensures objectId == old(objectId) && releaser == old(releaser)
      ensures |session.brick.Stream()| <= |old(session.brick.Stream())|
      ensures old(session.brick.calls) <= session.brick.calls
      ensures o.Pass? ==> NoReleasesSince(session.brick.calls, |old(session.brick.calls)|)
      ensures objectId.None? ==> o.Fail? && session.brick.calls == old(session.brick.calls)
      ensures kind == StringKind ==> NoReleasesSince(session.brick.calls, |old(session.brick.calls)|)
    {
      match kind {
        case StringKind => o := StringUpdate();
        case ListKind => o := ListUpdate();
        case FileKind => o := FileUpdate();
        case DirectoryKind => o := DirectoryUpdate();
        case ProcessKind => o := ProcessUpdate();
        case ProgramKind => o := ProgramUpdate();
      }
    }

    // ------------------------------------------------------------------- REDString

    /** REDString.update: the length, then chunks at the length received so far
        until the announced length is reached; the first failure raises. */
    method StringUpdate() returns (o: Outcome)
      requires kind == StringKind && Valid()
      modifies this`details, session.brick`calls, session.brick`script
      ensures details == old(details).(data := details.data)
      ensures Valid()
      ensures NoReleasesSince(session.brick.calls, |old(session.brick.calls)|)
      ensures objectId.None? ==>
                o == Fail(RuntimeError(Unattached(UpdateAction, StringNoun))) && details.data == old(details.data) &&
                session.brick.calls == old(session.brick.calls) && session.brick.script == old(session.brick.script)
      ensures objectId.Some? ==>
                var run := StringUpdateRun(objectId.value, old(session.brick.Stream()));
                session.brick.calls == old(session.brick.calls) + run.calls &&
                session.brick.Stream() == run.rest &&
                (run.result.Ok? ==> o == Pass && details.data == Some(run.result.value)) &&
                (run.result.Err? ==> o == Fail(run.result.error) && details.data == old(details.data))
    {
      if objectId.None? {
        return Fail(RuntimeError(Unattached(UpdateAction, StringNoun)));
      }
      var id := objectId.value;
      StringUpdateReleasesNothing(session.brick.calls, id, session.brick.Stream());
      var r := session.brick.Request(GetStringLength(id));
      if !r.Succeeded() {
        return Fail(ReplyFailure(r, QueryFailed(GetLengthOf, StringNoun, id)));
      }
      var text := GetChunks(session.brick, id, r.Value(0));
      assert session.brick.calls == old(session.brick.calls) + StringUpdateRun(id, old(session.brick.Stream())).calls;
      if text.Err? {
        return Fail(text.error);
      }
      details := details.(data := Some(text.value));
      o := Pass;
    }

    /** REDString.allocate: release, allocate a string of the full length carrying
        its first 58 bytes, attach to it without update, then set the remaining
        chunks at increasing offsets; the data is kept once all are set. */
    method StringAllocate(text: seq<byte>) returns (o: Outcome)
      requires kind == StringKind && Valid()
      modifies this, session.brick
      ensures Valid()
      ensures var first := text[..Min(MAX_ALLOCATE_BUFFER_LENGTH, |text|)];
              var before := old(session.brick.calls) + Released(IdList(old(objectId)), session.sessionId);
              var r := Head(old(session.brick.Stream()));
              (session.sessionId.None? ==>
                 o == Fail(TransportError) && objectId.None? && session.brick.calls == before) &&
              (session.sessionId.Some? && !r.Succeeded() ==>
                 o == Fail(ReplyFailure(r, AllocateFailed)) && objectId.None? &&
                 session.brick.calls == before + [AllocateString(|text|, first, session.sessionId.value)]) &&
              (session.sessionId.Some? && r.Succeeded() ==>
                 var run := SetChunksRun(r.Value(0), text[|first|..], |first|, Tail(old(session.brick.Stream())));
                 objectId == Some(r.Value(0)) &&
                 session.brick.calls == before + [AllocateString(|text|, first, session.sessionId.value)] + run.calls &&
                 session.brick.Stream() == run.rest &&
                 (run.result.Ok? ==> o == Pass && details.data == Some(text)) &&
                 (run.result.Err? ==> o == Fail(run.result.error)))
    {
      Release();
      var first := text[..Min(MAX_ALLOCATE_BUFFER_LENGTH, |text|)];
      var r := session.BoundRequest((sid: nat) => AllocateString(|text|, first, sid));
      if !r.Succeeded() {
        return Fail(ReplyFailure(r, AllocateFailed));
      }
      o := FillAllocated(r.Value(0), text, |first|);
    }

    /** The rest of REDString.allocate once the server allocated id with the first
        bytes of text: attach to id without update, then set the chunks after them. */
    method FillAllocated(id: nat, text: seq<byte>, start: nat) returns (o: Outcome)
      requires kind == StringKind && Valid() && objectId.None? && start <= |text|
      modifies this, session.brick
      ensures Valid() && objectId == Some(id)
      ensures var run := SetChunksRun(id, text[start..], start, old(session.brick.Stream()));
              session.brick.calls == old(session.brick.calls) + run.calls &&
              session.brick.Stream() == run.rest &&
              (run.result.Ok? ==> o == Pass && details.data == Some(text)) &&
              (run.result.Err? ==> o == Fail(run.result.error))
    {
      var _ := Bind(id);
      var sent := SetChunks(session.brick, id, text[start..], start);
      if sent.Err? {
        return Fail(sent.error);
      }
      details := details.(data := Some(text));
      o := Pass;
    }

    // --------------------------------------------------------------------- REDList

    /** REDList.update: the length, then each item in index order, attached by the
        class its type names; the items are kept only when all of them attached. */
    method ListUpdate() returns (o: Outcome)
      requires kind == ListKind && Valid()
      modifies this`details, session.brick
      decreases |session.brick.Stream()|, 2
      ensures details == old(details).(items := details.items)
      ensures Valid()
      ensures |session.brick.Stream()| <= |old(session.brick.Stream())|
      ensures old(session.brick.calls) <= session.brick.calls
      ensures o.Pass? ==> NoReleasesSince(session.brick.calls, |old(session.brick.calls)|)
      ensures objectId.None? ==>
                o == Fail(RuntimeError(Unattached(UpdateAction, ListNoun))) &&
                session.brick.calls == old(session.brick.calls) && details.items == old(details.items)
      ensures objectId.Some? ==>
                |session.brick.calls| > |old(session.brick.calls)| &&
                session.brick.calls[|old(session.brick.calls)|] == GetListLength(objectId.value)
      ensures var r := Head(old(session.brick.Stream()));
              objectId.Some? && !r.Succeeded() ==>
                o == Fail(ReplyFailure(r, QueryFailed(GetLengthOf, ListNoun, objectId.value))) &&
                session.brick.calls == old(session.brick.calls) + [GetListLength(objectId.value)]
      ensures o.Fail? ==> details.items == old(details.items)
      ensures o.Pass? ==>
                details.items.Some? && |details.items.value| == Head(old(session.brick.Stream())).Value(0) &&
                forall h :: h in details.items.value ==>
                  fresh(h) && h.Valid() && h.session == session && h.objectId.Some?
    {
      if objectId.None? {
        return Fail(RuntimeError(Unattached(UpdateAction, ListNoun)));
      }
      var id := objectId.value;
      var brick := session.brick;
      var r := brick.Request(GetListLength(id));
      if !r.Succeeded() {
        return Fail(ReplyFailure(r, QueryFailed(GetLengthOf, ListNoun, id)));
      }
      var hs;
      ghost var ids, at;
      hs, ids, at, o := FetchItems(session, id, r.Value(0));
      if o.Pass? {
        details := details.(items := Some(hs));
      }
    }

    // --------------------------------------------------------------- REDFileBase

    /** REDFileBase.update: the file information, then the name string unless the
        file is a pipe. */
    method FileUpdate() returns (o: Outcome)
      requires kind == FileKind && Valid()
      modifies this`details, session.brick
      decreases |session.brick.Stream()|, 2
      ensures details == old(details).(fileType := details.fileType, name := details.name)
      ensures Valid()
      ensures |session.brick.Stream()| <= |old(session.brick.Stream())|
      ensures old(session.brick.calls) <= session.brick.calls
      ensures o.Pass? ==> NoReleasesSince(session.brick.calls, |old(session.brick.calls)|)
      ensures objectId.None? ==>
                o == Fail(RuntimeError(Unattached(UpdateAction, FileNoun))) &&
                session.brick.calls == old(session.brick.calls) && details.name == old(details.name) && details.fileType == old(details.fileType)
      ensures var r := BoundReply(session.sessionId, old(session.brick.Stream()));
              objectId.Some? && !r.Succeeded() ==>
                o == Fail(ReplyFailure(r, QueryFailed(GetInformationFor, FileNoun, objectId.value))) &&
                details.name == old(details.name) && details.fileType == old(details.fileType)
      ensures var r := BoundReply(session.sessionId, old(session.brick.Stream()));
              objectId.Some? && r.Succeeded() ==>
                |session.brick.calls| > |old(session.brick.calls)| &&
                session.brick.calls[|old(session.brick.calls)|] == GetFileInfo(objectId.value, session.sessionId.value) &&
                details.fileType == Some(r.Value(0)) &&
                (r.Value(0) == FILE_TYPE_PIPE ==> o == Pass && details.name.None?) &&
                (r.Value(0) != FILE_TYPE_PIPE && o.Pass? ==> Holds(details.name, r.Value(1))) &&
                (o.Fail? ==> details.name == old(details.name) && EndsWith(session.brick.calls, Released([r.Value(1)], session.sessionId)))
    {
      if objectId.None? {
        return Fail(RuntimeError(Unattached(UpdateAction, FileNoun)));
      }
      var id := objectId.value;
      ghost var c0 := session.brick.calls;
      var r := session.BoundRequest((sid: nat) => GetFileInfo(id, sid));
      if !r.Succeeded() {
        return Fail(ReplyFailure(r, QueryFailed(GetInformationFor, FileNoun, id)));
      }
      OneCallReleasesNothing(c0, GetFileInfo(id, session.sessionId.value));
      details := details.(fileType := Some(r.Value(0)));
      if r.Value(0) == FILE_TYPE_PIPE {
        details := details.(name := None);
        return Pass;
      }
      ghost var mid := session.brick.calls;
      o := HoldName(r.Value(1));
      if o.Pass? {
        NoReleasesExtend(mid, session.brick.calls, |c0|);
      }
    }

    /** The name string of a file, attached or released. */
    method HoldName(stringId: nat) returns (o: Outcome)
      modifies this`details, session.brick
      decreases |session.brick.Stream()|, 7
      ensures details == old(details).(name := details.name)
      ensures |session.brick.Stream()| <= |old(session.brick.Stream())|
      ensures old(session.brick.calls) <= session.brick.calls
      ensures o.Pass? ==> NoReleasesSince(session.brick.calls, |old(session.brick.calls)|) && Holds(details.name, stringId)
      ensures o.Fail? ==> details == old(details) && EndsWith(session.brick.calls, Released([stringId], session.sessionId))
    {
      assert [stringId] + [] == [stringId];
      var h := AttachOrRelease(session, StringKind, stringId, []);
      if h.Err? {
        return Fail(h.error);
      }
      details := details.(name := Some(h.value));
      o := Pass;
    }

    /** REDFileBase.write: 61-byte padded chunks, each dropping as many bytes as the
        server reports written; the first failure raises. */
    method FileWrite(bytes: seq<byte>) returns (o: Outcome)
      requires kind == FileKind
      modifies session.brick`calls, session.brick`script
      ensures objectId.None? ==>
                o == Fail(RuntimeError(Unattached(WriteToAction, FileNoun))) &&
                session.brick.calls == old(session.brick.calls) && session.brick.script == old(session.brick.script)
      ensures objectId.Some? ==>
                var run := WriteRun(objectId.value, bytes, old(session.brick.Stream()));
                session.brick.calls == old(session.brick.calls) + run.calls &&
                session.brick.Stream() == run.rest &&
                o == (if run.result.Ok? then Pass else Fail(run.result.error))
    {
      if objectId.None? {
        return Fail(RuntimeError(Unattached(WriteToAction, FileNoun)));
      }
      var result := WriteChunks(session.brick, objectId.value, bytes);
      o := if result.Ok? then Pass else Fail(result.error);
    }

    /** REDFileBase.read: ask for min(length, 62) bytes at a time until length is
        reached or a reply brings none; the first failure raises. */
    method FileRead(length: int) returns (result: Result<seq<byte>>)
      requires kind == FileKind
      modifies session.brick`calls, session.brick`script
      ensures objectId.None? ==>
                result == Err(RuntimeError(Unattached(ReadFromAction, FileNoun))) &&
                session.brick.calls == old(session.brick.calls) && session.brick.script == old(session.brick.script)
      ensures objectId.Some? ==>
                var run := ReadRun(objectId.value, length, [], old(session.brick.Stream()));
                session.brick.calls == old(session.brick.calls) + run.calls &&
                session.brick.Stream() == run.rest && result == run.result
    {
      if objectId.None? {
        return Err(RuntimeError(Unattached(ReadFromAction, FileNoun)));
      }
      result := ReadChunks(session.brick, objectId.value, length);
    }

    /** REDFileBase.write_async: refused while unattached or while another write
        runs; otherwise the data becomes the write job and its first burst goes out. */
    method WriteAsync(bytes: seq<byte>) returns (o: Outcome)
      requires kind == FileKind && Valid()
      modifies this`writeJob, this`signals, session.brick`calls
      ensures Valid()
      ensures objectId.None? ==>
                o == Fail(RuntimeError(Unattached(WriteToAction, FileNoun))) &&
                writeJob == old(writeJob) && signals == old(signals) && session.brick.calls == old(session.brick.calls)
      ensures objectId.Some? && old(writeJob).Some? ==>
                o == Fail(RuntimeError(WriteInProgress)) &&
                writeJob == old(writeJob) && signals == old(signals) && session.brick.calls == old(session.brick.calls)
      ensures objectId.Some? && old(writeJob).None? ==>
                o == Pass && BurstSent(WriteJob(bytes, |bytes|, 0), old(session.brick.calls), old(signals))
    {
      if objectId.None? {
        return Fail(RuntimeError(Unattached(WriteToAction, FileNoun)));
      }
      if writeJob.Some? {
        return Fail(RuntimeError(WriteInProgress));
      }
      writeJob := Some(WriteJob(bytes, |bytes|, 0));
      NextBurst();
      o := Pass;
    }

    /** The effect of one burst for job, given the calls and signals before it: on a
        connected brick the unchecked writes and the acknowledged write were sent and
        the job advanced over the unchecked ones; otherwise the first send raised,
        the error was reported and the job dropped. */
    ghost predicate BurstSent(job: WriteJob, calls0: seq<Call>, signals0: seq<Signal>)
      requires objectId.Some?
      reads this, session, session.brick
    {
      var id := objectId.value;
      var (writes, reached) := BurstWrites(id, job.data, job.written, 0);
      (session.brick.connected ==>
         session.brick.calls == calls0 + writes + [AsyncWrite(id, job.data, reached)] &&
         writeJob == Some(job.(written := reached)) && signals == signals0) &&
      (!session.brick.connected ==>
         |session.brick.calls| == |calls0| + 1 && writeJob.None? &&
         signals == signals0 + [WriteDone(Some(TransportError))])
    }

    /** _next_write_async_burst: at most 1999 unchecked 61-byte writes while more
        than 61 bytes remain, then one acknowledged write of the rest of the burst. */
    method NextBurst()
      requires kind == FileKind && Valid() && objectId.Some? && writeJob.Some?
      modifies this`writeJob, this`signals, session.brick`calls
      ensures Valid()
      ensures BurstSent(old(writeJob).value, old(session.brick.calls), old(signals))
    {
      var id := objectId.value;
      var job := writeJob.value;
      var sent, written := SendBurst(session.brick, id, job.data, job.written);
      if !sent {
        signals := signals + [WriteDone(Some(TransportError))];
        writeJob := None;
        return;
      }
      writeJob := Some(job.(written := written));
      var (chunk, n) := ZeroPaddedChunk(job.data, MAX_WRITE_ASYNC_BUFFER_LENGTH, written);
      sent := session.brick.Send(WriteFileAsync(id, chunk, n));
      if !sent {
        signals := signals + [WriteDone(Some(TransportError))];
        writeJob := None;
      }
    }

    /** _cb_async_file_write, for a push-event (fileId, code, lengthWritten). Events
        for other objects, or without a write job, change nothing. */
    method OnAsyncFileWrite(fileId: nat, code: nat, lengthWritten: nat)
      requires kind == FileKind && Valid()
      modifies this`writeJob, this`signals, session.brick`calls
      ensures Valid()
      ensures objectId != Some(fileId) || old(writeJob).None? ==>
                writeJob == old(writeJob) && signals == old(signals) && session.brick.calls == old(session.brick.calls)
      ensures objectId == Some(fileId) && old(writeJob).Some? && code != E_SUCCESS ==>
                writeJob.None? && session.brick.calls == old(session.brick.calls) &&
                signals == old(signals) + [WriteDone(Some(RemoteError(QueryFailed(WriteTo, FileNoun, fileId), code)))]
      ensures objectId == Some(fileId) && old(writeJob).Some? && code == E_SUCCESS ==>
                var job := old(writeJob).value;
                var w := job.written + lengthWritten;
                (w >= job.length ==>
                   writeJob.None? && session.brick.calls == old(session.brick.calls) &&
                   signals == old(signals) + [WriteStatus(w, job.length), WriteDone(None)]) &&
                (w < job.length ==>
                   BurstSent(job.(written := w), old(session.brick.calls), old(signals) + [WriteStatus(w, job.length)]))
    {
      if objectId != Some(fileId) || writeJob.None? {
        return;
      }
      if code != E_SUCCESS {
        signals := signals + [WriteDone(Some(RemoteError(QueryFailed(WriteTo, FileNoun, fileId), code)))];
        writeJob := None;
        return;
      }
      var job := writeJob.value.(written := writeJob.value.written + lengthWritten);
      writeJob := Some(job);
      signals := signals + [WriteStatus(job.written, job.length)];
      if job.written >= job.length {
        signals := signals + [WriteDone(None)];
        writeJob := None;
        return;
      }
      NextBurst();
    }

    /** REDFileBase.read_async: refused while unattached or while another read runs;
        otherwise an empty read job is set up and one asynchronous read asked for.
        When that send raises, the job stays set. */
    method ReadAsync(maxLength: nat) returns (o: Outcome)
      requires kind == FileKind
      modifies this`readJob, session.brick`calls
      ensures objectId.None? ==>
                o == Fail(RuntimeError(Unattached(WriteToAction, FileNoun))) &&
                readJob == old(readJob) && session.brick.calls == old(session.brick.calls)
      ensures objectId.Some? && old(readJob).Some? ==>
                o == Fail(RuntimeError(WriteInProgress)) &&
                readJob == old(readJob) && session.brick.calls == old(session.brick.calls)
      ensures objectId.Some? && old(readJob).None? ==>
                readJob == Some(ReadJob([], maxLength)) &&
                session.brick.calls == old(session.brick.calls) + [ReadFileAsync(objectId.value, maxLength)] &&
                o == (if session.brick.connected then Pass else Fail(TransportError))
    {
      if objectId.None? {
        return Fail(RuntimeError(Unattached(WriteToAction, FileNoun)));
      }
      if readJob.Some? {
        return Fail(RuntimeError(WriteInProgress));
      }
      readJob := Some(ReadJob([], maxLength));
      var sent := session.brick.Send(ReadFileAsync(objectId.value, maxLength));
      o := if sent then Pass else Fail(TransportError);
    }

    /** _cb_async_file_read, for a push-event (fileId, code, buffer, lengthRead).
        Events for other objects, or without a read job, change nothing. */
    method OnAsyncFileRead(fileId: nat, code: nat, buffer: seq<byte>, lengthRead: nat)
      requires kind == FileKind
      modifies this`readJob, this`signals
      ensures objectId != Some(fileId) || old(readJob).None? ==>
                readJob == old(readJob) && signals == old(signals)
      ensures objectId == Some(fileId) && old(readJob).Some? && code != E_SUCCESS ==>
                var job := old(readJob).value;
                readJob.None? &&
                signals == old(signals) + [ReadDone(job.data, Some(RemoteError(QueryFailed(ReadQuery, FileNoun, fileId), code)))]
      ensures objectId == Some(fileId) && old(readJob).Some? && code == E_SUCCESS && lengthRead == 0 ==>
                readJob.None? && signals == old(signals) + [ReadDone(old(readJob).value.data, None)]
      ensures objectId == Some(fileId) && old(readJob).Some? && code == E_SUCCESS && lengthRead > 0 ==>
                var job := old(readJob).value;
                var got := job.data + Take(buffer, lengthRead);
                (|got| == job.maxLength ==>
                   readJob.None? && signals == old(signals) + [ReadStatus(|got|, job.maxLength), ReadDone(got, None)]) &&
                (|got| != job.maxLength ==>
                   readJob == Some(ReadJob(got, job.maxLength)) && signals == old(signals) + [ReadStatus(|got|, job.maxLength)])
    {
      if objectId != Some(fileId) || readJob.None? {
        return;
      }
      var job := readJob.value;
      if code != E_SUCCESS {
        signals := signals + [ReadDone(job.data, Some(RemoteError(QueryFailed(ReadQuery, FileNoun, fileId), code)))];
        readJob := None;
        return;
      }
      if lengthRead == 0 {
        signals := signals + [ReadDone(job.data, None)];
        readJob := None;
        return;
      }
      job := job.(data := job.data + Take(buffer, lengthRead));
      readJob := Some(job);
      signals := signals + [ReadStatus(|job.data|, job.maxLength)];
      if |job.data| == job.maxLength {
        signals := signals + [ReadDone(job.data, None)];
        readJob := None;
      }
    }

    // ---------------------------------------------------------------- REDDirectory

    /** REDDirectory.update: the name string, a rewind, then every entry until the
        server reports E_NO_MORE_DATA. */
    method DirectoryUpdate() returns (o: Outcome)
      requires kind == DirectoryKind && Valid()
      modifies this`details, session.brick
      decreases |session.brick.Stream()|, 2
      ensures details == old(details).(name := details.name, entries := details.entries)
      ensures Valid()
      ensures |session.brick.Stream()| <= |old(session.brick.Stream())|
      ensures old(session.brick.calls) <= session.brick.calls
      ensures o.Pass? ==> NoReleasesSince(session.brick.calls, |old(session.brick.calls)|)
      ensures objectId.None? ==>
                o == Fail(RuntimeError(Unattached(UpdateAction, DirectoryNoun))) &&
                session.brick.calls == old(session.brick.calls) && details.name == old(details.name) && details.entries == old(details.entries)
      ensures var r := BoundReply(session.sessionId, old(session.brick.Stream()));
              objectId.Some? && !r.Succeeded() ==>
                o == Fail(ReplyFailure(r, QueryFailed(GetNameOf, DirectoryNoun, objectId.value))) &&
                details.name == old(details.name) && details.entries == old(details.entries)
      ensures var r := BoundReply(session.sessionId, old(session.brick.Stream()));
              objectId.Some? && r.Succeeded() ==>
                |session.brick.calls| > |old(session.brick.calls)| &&
                session.brick.calls[|old(session.brick.calls)|] == GetDirectoryName(objectId.value, session.sessionId.value) &&
                (o.Pass? ==> Holds(details.name, r.Value(0)) && details.entries.Some? &&
                             forall e :: e in details.entries.value ==> fresh(e.0) && e.0.Valid() && e.0.objectId.Some?)
      ensures o.Fail? ==> details.entries == old(details.entries)
    {
      if objectId.None? {
        return Fail(RuntimeError(Unattached(UpdateAction, DirectoryNoun)));
      }
      var id := objectId.value;
      ghost var c0 := session.brick.calls;
      var r := session.BoundRequest((sid: nat) => GetDirectoryName(id, sid));
      if !r.Succeeded() {
        return Fail(ReplyFailure(r, QueryFailed(GetNameOf, DirectoryNoun, id)));
      }
      OneCallReleasesNothing(c0, GetDirectoryName(id, session.sessionId.value));
      ghost var mid := session.brick.calls;
      assert [r.Value(0)] + [] == [r.Value(0)];
      var h := AttachOrRelease(session, StringKind, r.Value(0), []);
      if h.Err? {
        return Fail(h.error);
      }
      NoReleasesExtend(mid, session.brick.calls, |c0|);
      details := details.(name := Some(h.value));
      o := ListEntries(id);
    }

    /** The entry part of REDDirectory.update: a rewind, then every entry until the
        server reports E_NO_MORE_DATA; the entries are kept only when all of them
        attached. */
    method ListEntries(id: nat) returns (o: Outcome)
      modifies this`details, session.brick
      decreases |session.brick.Stream()|, 9
      ensures details == old(details).(entries := details.entries)
      ensures |session.brick.Stream()| <= |old(session.brick.Stream())|
      ensures old(session.brick.calls) + [RewindDirectory(id)] <= session.brick.calls
      ensures o.Pass? ==> NoReleasesSince(session.brick.calls, |old(session.brick.calls)|)
      ensures var r := Head(old(session.brick.Stream()));
              !r.Succeeded() ==>
                o == Fail(ReplyFailure(r, QueryFailed(Rewind, DirectoryNoun, id))) &&
                session.brick.calls == old(session.brick.calls) + [RewindDirectory(id)]
      ensures o.Pass? ==>
                details.entries.Some? &&
                forall e :: e in details.entries.value ==> fresh(e.0) && e.0.Valid() && e.0.objectId.Some?
      ensures o.Fail? ==> details == old(details)
    {
      var rewind := session.brick.Request(RewindDirectory(id));
      if !rewind.Succeeded() {
        return Fail(ReplyFailure(rewind, QueryFailed(Rewind, DirectoryNoun, id)));
      }
      var found;
      ghost var ids;
      found, ids, o := FetchEntries(session, id);
      if o.Pass? {
        details := details.(entries := Some(found));
      }
    }

    // ------------------------------------------------------------------ REDProcess

    /** REDProcess.update: command, identity, stdio and state, stopping at the first
        failure. */
    method ProcessUpdate() returns (o: Outcome)
      requires kind == ProcessKind && Valid()
      modifies this`details, session.brick
      decreases |session.brick.Stream()|, 2
      ensures details == old(details).(executable := details.executable, arguments := details.arguments,
                                         environment := details.environment, workingDirectory := details.workingDirectory,
                                         identity := details.identity, stdin := details.stdin, stdout := details.stdout,
                                         stderr := details.stderr, state := details.state)
      ensures Valid()
      ensures |session.brick.Stream()| <= |old(session.brick.Stream())|
      ensures old(session.brick.calls) <= session.brick.calls
      ensures o.Pass? ==> NoReleasesSince(session.brick.calls, |old(session.brick.calls)|)
      ensures objectId.None? ==>
                o == Fail(RuntimeError(Unattached(UpdateAction, ProcessNoun))) &&
                session.brick.calls == old(session.brick.calls) && details == old(details)
      ensures var r := BoundReply(session.sessionId, old(session.brick.Stream()));
              objectId.Some? && !r.Succeeded() ==>
                o == Fail(ReplyFailure(r, QueryFailed(GetCommandOf, ProcessNoun, objectId.value))) &&
                details == old(details) && |session.brick.calls| <= |old(session.brick.calls)| + 1
      ensures var r := BoundReply(session.sessionId, old(session.brick.Stream()));
              objectId.Some? && r.Succeeded() ==>
                |session.brick.calls| > |old(session.brick.calls)| &&
                session.brick.calls[|old(session.brick.calls)|] == CommandCall(kind, objectId.value, session.sessionId.value)
      ensures o.Pass? ==>
                objectId.Some? && LastCall(session.brick.calls, GetProcessState(objectId.value))
      ensures o.Pass? ==>
                details.executable.Some? && details.arguments.Some? && details.environment.Some? && details.workingDirectory.Some? &&
                details.identity.Some? && details.stdin.Some? && details.stdout.Some? && details.stderr.Some? && details.state.Some?
    {
      ghost var c0 := session.brick.calls;
      o := UpdateCommand();
      assert objectId.None? ==> o.error.message == Unattached(UpdateAction, ProcessNoun);
      if o.Pass? {
        ghost var c1 := session.brick.calls;
        ghost var d1 := details;
        o := UpdateRuntime();
        assert details.executable == d1.executable && details.arguments == d1.arguments &&
               details.environment == d1.environment && details.workingDirectory == d1.workingDirectory;
        if o.Pass? {
          NoReleasesExtend(c1, session.brick.calls, |c0|);
        }
      }
    }

    /** The steps of REDProcess.update after the command: identity, stdio and state,
        stopping at the first failure. */
    method UpdateRuntime() returns (o: Outcome)
      requires kind == ProcessKind && Valid()
      modifies this`details, session.brick
      decreases |session.brick.Stream()|, 1
      ensures details == old(details).(identity := details.identity, stdin := details.stdin, stdout := details.stdout,
                                         stderr := details.stderr, state := details.state)
      ensures |session.brick.Stream()| <= |old(session.brick.Stream())|
      ensures old(session.brick.calls) <= session.brick.calls
      ensures o.Pass? ==> NoReleasesSince(session.brick.calls, |old(session.brick.calls)|)
      ensures objectId.None? ==>
                o == Fail(RuntimeError(Unattached(UpdateAction, ProcessNoun))) &&
                session.brick.calls == old(session.brick.calls) && details == old(details)
      ensures var r := Head(old(session.brick.Stream()));
              objectId.Some? ==>
                |session.brick.calls| > |old(session.brick.calls)| &&
                session.brick.calls[|old(session.brick.calls)|] == GetProcessIdentity(objectId.value) &&
                (r.Succeeded() ==> details.identity == Some((r.Value(0), r.Value(1), r.Value(2)))) &&
                (!r.Succeeded() ==>
                   o == Fail(ReplyFailure(r, QueryFailed(GetIdentityOf, ProcessNoun, objectId.value))) &&
                   session.brick.calls == old(session.brick.calls) + [GetProcessIdentity(objectId.value)] &&
                   details == old(details))
      ensures var r := Head(old(session.brick.Stream()));
              var s := BoundReply(session.sessionId, Tail(old(session.brick.Stream())));
              objectId.Some? && r.Succeeded() ==>
                (!s.Succeeded() ==>
                   o == Fail(ReplyFailure(s, QueryFailed(GetStdioOf, ProcessNoun, objectId.value))) &&
                   details.state == old(details.state)) &&
                (s.Succeeded() ==>
                   |session.brick.calls| > |old(session.brick.calls)| + 1 &&
                   session.brick.calls[|old(session.brick.calls)| + 1] == GetProcessStdio(objectId.value, session.sessionId.value)) &&
                (o.Pass? ==> Holds(details.stdin, s.Value(0)) && Holds(details.stdout, s.Value(1)) && Holds(details.stderr, s.Value(2)))
      ensures o.Pass? ==>
                objectId.Some? && LastCall(session.brick.calls, GetProcessState(objectId.value)) && details.state.Some?
    {
      ghost var c0 := session.brick.calls;
      o := UpdateIdentity();
      if o.Pass? {
        ghost var c1 := session.brick.calls;
        o := UpdateStdioAndState();
        if o.Pass? {
          NoReleasesExtend(c1, session.brick.calls, |c0|);
        }
      }
    }

    /** The last two steps of REDProcess.update: stdio, then state unless stdio
        failed. */
    method UpdateStdioAndState() returns (o: Outcome)
      requires kind == ProcessKind && Valid()
      modifies this`details, session.brick
      decreases |session.brick.Stream()|, 1
      ensures details == old(details).(stdin := details.stdin, stdout := details.stdout, stderr := details.stderr,
                                         state := details.state)
      ensures |session.brick.Stream()| <= |old(session.brick.Stream())|
      ensures old(session.brick.calls) <= session.brick.calls
      ensures o.Pass? ==> NoReleasesSince(session.brick.calls, |old(session.brick.calls)|)
      ensures var s := BoundReply(session.sessionId, old(session.brick.Stream()));
              objectId.Some? ==>
                (!s.Succeeded() ==>
                   o == Fail(ReplyFailure(s, QueryFailed(GetStdioOf, ProcessNoun, objectId.value))) &&
                   details.state == old(details.state)) &&
                (s.Succeeded() ==>
                   |session.brick.calls| > |old(session.brick.calls)| &&
                   session.brick.calls[|old(session.brick.calls)|] == GetProcessStdio(objectId.value, session.sessionId.value)) &&
                (o.Pass? ==> Holds(details.stdin, s.Value(0)) && Holds(details.stdout, s.Value(1)) && Holds(details.stderr, s.Value(2)))
      ensures o.Pass? ==>
                objectId.Some? && LastCall(session.brick.calls, GetProcessState(objectId.value)) && details.state.Some?
    {
      ghost var c0 := session.brick.calls;
      o := UpdateStdio();
      ghost var c1 := session.brick.calls;
      if o.Pass? {
        o := UpdateState();
        if o.Pass? {
          NoReleasesExtend(c1, session.brick.calls, |c0|);
        }
      }
    }

    /** update_command of REDProcess and REDProgram: the executable, arguments,
        environment and working directory ids, each attached in turn with the later
        ones as extras to release should it fail. Every id is then either held by
        its field or released. */
    method UpdateCommand() returns (o: Outcome)
      requires (kind == ProcessKind || kind == ProgramKind) && Valid()
      modifies this`details, session.brick
      decreases |session.brick.Stream()|, 0
      ensures details == old(details).(executable := details.executable, arguments := details.arguments,
                                         environment := details.environment, workingDirectory := details.workingDirectory)
      ensures Valid()
      ensures |session.brick.Stream()| <= |old(session.brick.Stream())|
      ensures old(session.brick.calls) <= session.brick.calls
      ensures o.Pass? ==> NoReleasesSince(session.brick.calls, |old(session.brick.calls)|)
      ensures objectId.None? ==>
                o == Fail(RuntimeError(Unattached(UpdateAction, KindNoun(kind)))) &&
                session.brick.calls == old(session.brick.calls) && details == old(details)
      ensures var r := BoundReply(session.sessionId, old(session.brick.Stream()));
              objectId.Some? && !r.Succeeded() ==>
                o == Fail(ReplyFailure(r, QueryFailed(GetCommandOf, KindNoun(kind), objectId.value))) &&
                details == old(details) && |session.brick.calls| <= |old(session.brick.calls)| + 1
      ensures var r := BoundReply(session.sessionId, old(session.brick.Stream()));
              var ids := [r.Value(0), r.Value(1), r.Value(2), r.Value(3)];
              objectId.Some? && r.Succeeded() ==>
                |session.brick.calls| > |old(session.brick.calls)| &&
                session.brick.calls[|old(session.brick.calls)|] == CommandCall(kind, objectId.value, session.sessionId.value) &&
                (o.Pass? ==> Holds(details.executable, ids[0]) && Holds(details.arguments, ids[1]) &&
                             Holds(details.environment, ids[2]) && Holds(details.workingDirectory, ids[3])) &&
                (o.Fail? ==> exists k :: 0 <= k < 4 && EndsWith(session.brick.calls, Released(ids[k..], session.sessionId)) &&
                               (k > 0 ==> Holds(details.executable, ids[0])) && (k > 1 ==> Holds(details.arguments, ids[1])) &&
                               (k > 2 ==> Holds(details.environment, ids[2])))
    {
      if objectId.None? {
        return Fail(RuntimeError(Unattached(UpdateAction, KindNoun(kind))));
      }
      var id := objectId.value;
      var r := session.BoundRequest((sid: nat) => CommandCall(kind, id, sid));
      if !r.Succeeded() {
        return Fail(ReplyFailure(r, QueryFailed(GetCommandOf, KindNoun(kind), id)));
      }
      o := HoldCommand([r.Value(0), r.Value(1), r.Value(2), r.Value(3)]);
    }

    /** The attach-or-release steps of update_command for the executable, arguments,
        environment and working directory ids: each id before the first failure is
        held by its field, the rest are released. */
    method HoldCommand(ids: seq<nat>) returns (o: Outcome)
      requires |ids| == 4
      modifies this`details, session.brick
      decreases |session.brick.Stream()|, 8
      ensures details == old(details).(executable := details.executable, arguments := details.arguments,
                                         environment := details.environment, workingDirectory := details.workingDirectory)
      ensures |session.brick.Stream()| <= |old(session.brick.Stream())|
      ensures old(session.brick.calls) <= session.brick.calls
      ensures o.Pass? ==> NoReleasesSince(session.brick.calls, |old(session.brick.calls)|)
      ensures o.Pass? ==> Holds(details.executable, ids[0]) && Holds(details.arguments, ids[1]) &&
                          Holds(details.environment, ids[2]) && Holds(details.workingDirectory, ids[3])
      ensures o.Fail? ==> exists k :: 0 <= k < 4 && EndsWith(session.brick.calls, Released(ids[k..], session.sessionId)) &&
                            (k > 0 ==> Holds(details.executable, ids[0])) && (k > 1 ==> Holds(details.arguments, ids[1])) &&
                            (k > 2 ==> Holds(details.environment, ids[2]))
    {
      var hs;
      hs, o := FetchSiblings(session, [StringKind, ListKind, ListKind, StringKind], ids);
      if |hs| > 0 { details := details.(executable := Some(hs[0])); }
      if |hs| > 1 { details := details.(arguments := Some(hs[1])); }
      if |hs| > 2 { details := details.(environment := Some(hs[2])); }
      if |hs| > 3 { details := details.(workingDirectory := Some(hs[3])); }
    }

    /** REDProcess.update_identity: pid, uid and gid. */
    method UpdateIdentity() returns (o: Outcome)
      requires kind == ProcessKind
      modifies this`details, session.brick`calls, session.brick`script
      ensures details == old(details).(identity := details.identity)
      ensures |session.brick.Stream()| <= |old(session.brick.Stream())|
      ensures objectId.None? ==>
                o == Fail(RuntimeError(Unattached(UpdateAction, ProcessNoun))) &&
                session.brick.calls == old(session.brick.calls) && details.identity == old(details.identity)
      ensures objectId.Some? ==> session.brick.Stream() == Tail(old(session.brick.Stream()))
      ensures var r := Head(old(session.brick.Stream()));
              objectId.Some? ==>
                session.brick.calls == old(session.brick.calls) + [GetProcessIdentity(objectId.value)] &&
                (r.Succeeded() ==> o == Pass && details.identity == Some((r.Value(0), r.Value(1), r.Value(2)))) &&
                (!r.Succeeded() ==>
                   o == Fail(ReplyFailure(r, QueryFailed(GetIdentityOf, ProcessNoun, objectId.value))) &&
                   details.identity == old(details.identity))
    {
      if objectId.None? {
        return Fail(RuntimeError(Unattached(UpdateAction, ProcessNoun)));
      }
      var r := session.brick.Request(GetProcessIdentity(objectId.value));
      if !r.Succeeded() {
        return Fail(ReplyFailure(r, QueryFailed(GetIdentityOf, ProcessNoun, objectId.value)));
      }
      details := details.(identity := Some((r.Value(0), r.Value(1), r.Value(2))));
      o := Pass;
    }

    /** REDProcess.update_stdio: the stdin, stdout and stderr file ids, attached in
        turn with the later ones as extras; every id is held or released. */
    method UpdateStdio() returns (o: Outcome)
      requires kind == ProcessKind && Valid()
      modifies this`details, session.brick
      decreases |session.brick.Stream()|, 0
      ensures details == old(details).(stdin := details.stdin, stdout := details.stdout, stderr := details.stderr)
      ensures Valid()
      ensures |session.brick.Stream()| <= |old(session.brick.Stream())|
      ensures old(session.brick.calls) <= session.brick.calls
      ensures o.Pass? ==> NoReleasesSince(session.brick.calls, |old(session.brick.calls)|)
      ensures objectId.None? ==>
                o == Fail(RuntimeError(Unattached(UpdateAction, ProcessNoun))) &&
                session.brick.calls == old(session.brick.calls)
      ensures var r := BoundReply(session.sessionId, old(session.brick.Stream()));
              objectId.Some? && !r.Succeeded() ==>
                o == Fail(ReplyFailure(r, QueryFailed(GetStdioOf, ProcessNoun, objectId.value)))
      ensures var r := BoundReply(session.sessionId, old(session.brick.Stream()));
              var ids := [r.Value(0), r.Value(1), r.Value(2)];
              objectId.Some? && r.Succeeded() ==>
                |session.brick.calls| > |old(session.brick.calls)| &&
                session.brick.calls[|old(session.brick.calls)|] == GetProcessStdio(objectId.value, session.sessionId.value) &&
                (o.Pass? ==> Holds(details.stdin, ids[0]) && Holds(details.stdout, ids[1]) && Holds(details.stderr, ids[2])) &&
                (o.Fail? ==> exists k :: 0 <= k < 3 && EndsWith(session.brick.calls, Released(ids[k..], session.sessionId)) &&
                               (k > 0 ==> Holds(details.stdin, ids[0])) && (k > 1 ==> Holds(details.stdout, ids[1])))
    {
      if objectId.None? {
        return Fail(RuntimeError(Unattached(UpdateAction, ProcessNoun)));
      }
      var id := objectId.value;
      var r := session.BoundRequest((sid: nat) => GetProcessStdio(id, sid));
      if !r.Succeeded() {
        return Fail(ReplyFailure(r, QueryFailed(GetStdioOf, ProcessNoun, id)));
      }
      o := HoldStdio([r.Value(0), r.Value(1), r.Value(2)]);
    }

    /** The attach-or-release steps of update_stdio for the stdin, stdout and stderr
        ids: each id before the first failure is held by its field, the rest are
        released. */
    method HoldStdio(ids: seq<nat>) returns (o: Outcome)
      requires |ids| == 3
      modifies this`details, session.brick
      decreases |session.brick.Stream()|, 8
      ensures details == old(details).(stdin := details.stdin, stdout := details.stdout, stderr := details.stderr)
      ensures |session.brick.Stream()| <= |old(session.brick.Stream())|
      ensures old(session.brick.calls) <= session.brick.calls
      ensures o.Pass? ==> NoReleasesSince(session.brick.calls, |old(session.brick.calls)|)
      ensures o.Pass? ==> Holds(details.stdin, ids[0]) && Holds(details.stdout, ids[1]) && Holds(details.stderr, ids[2])
      ensures o.Fail? ==> exists k :: 0 <= k < 3 && EndsWith(session.brick.calls, Released(ids[k..], session.sessionId)) &&
                            (k > 0 ==> Holds(details.stdin, ids[0])) && (k > 1 ==> Holds(details.stdout, ids[1]))
    {
      var hs;
      hs, o := FetchSiblings(session, [FileKind, FileKind, FileKind], ids);
      if |hs| > 0 { details := details.(stdin := Some(hs[0])); }
      if |hs| > 1 { details := details.(stdout := Some(hs[1])); }
      if |hs| > 2 { details := details.(stderr := Some(hs[2])); }
    }

    /** REDProcess.update_state: state, timestamp and exit code. */
    method UpdateState() returns (o: Outcome)
      requires kind == ProcessKind
      modifies this`details, session.brick`calls, session.brick`script
      ensures details == old(details).(state := details.state)
      ensures |session.brick.Stream()| <= |old(session.brick.Stream())|
      ensures objectId.None? ==>
                o == Fail(RuntimeError(Unattached(UpdateAction, ProcessNoun))) &&
                session.brick.calls == old(session.brick.calls) && details.state == old(details.state)
      ensures var r := Head(old(session.brick.Stream()));
              objectId.Some? ==>
                session.brick.calls == old(session.brick.calls) + [GetProcessState(objectId.value)] &&
                (r.Succeeded() ==> o == Pass && details.state == Some((r.Value(0), r.Value(1), r.Value(2)))) &&
                (!r.Succeeded() ==>
                   o == Fail(ReplyFailure(r, QueryFailed(GetStateOf, ProcessNoun, objectId.value))) &&
                   details.state == old(details.state))
    {
      if objectId.None? {
        return Fail(RuntimeError(Unattached(UpdateAction, ProcessNoun)));
      }
      var r := session.brick.Request(GetProcessState(objectId.value));
      if !r.Succeeded() {
        return Fail(ReplyFailure(r, QueryFailed(GetStateOf, ProcessNoun, objectId.value)));
      }
      details := details.(state := Some((r.Value(0), r.Value(1), r.Value(2))));
      o := Pass;
    }

    // ------------------------------------------------------------------ REDProgram

    /** REDProgram.update, as far as identifier, root directory and command. */
    method ProgramUpdate() returns (o: Outcome)
      requires kind == ProgramKind && Valid()
      modifies this`details, session.brick
      decreases |session.brick.Stream()|, 2
      ensures details == old(details).(identifier := details.identifier, rootDirectory := details.rootDirectory,
                                         executable := details.executable, arguments := details.arguments,
                                         environment := details.environment, workingDirectory := details.workingDirectory)
      ensures Valid()
      ensures |session.brick.Stream()| <= |old(session.brick.Stream())|
      ensures old(session.brick.calls) <= session.brick.calls
      ensures o.Pass? ==> NoReleasesSince(session.brick.calls, |old(session.brick.calls)|)
      ensures objectId.None? ==>
                o == Fail(RuntimeError(Unattached(UpdateAction, ProgramNoun))) &&
                session.brick.calls == old(session.brick.calls) && details == old(details)
      ensures var r := BoundReply(session.sessionId, old(session.brick.Stream()));
              objectId.Some? && !r.Succeeded() ==>
                o == Fail(ReplyFailure(r, QueryFailed(GetIdentifierOf, ProgramNoun, objectId.value))) &&
                details == old(details) && |session.brick.calls| <= |old(session.brick.calls)| + 1
      ensures var r := BoundReply(session.sessionId, old(session.brick.Stream()));
              objectId.Some? && r.Succeeded() ==>
                |session.brick.calls| > |old(session.brick.calls)| &&
                session.brick.calls[|old(session.brick.calls)|] == GetProgramIdentifier(objectId.value, session.sessionId.value)
      ensures o.Pass? ==>
                details.identifier.Some? && details.rootDirectory.Some? && details.executable.Some? && details.arguments.Some? &&
                details.environment.Some? && details.workingDirectory.Some?
    {
      ghost var c0 := session.brick.calls;
      o := UpdateIdentifier();
      assert objectId.None? ==> o.error.message == Unattached(UpdateAction, ProgramNoun);
      if o.Pass? {
        ghost var c1 := session.brick.calls;
        o := UpdateRootAndCommand();
        if o.Pass? {
          NoReleasesExtend(c1, session.brick.calls, |c0|);
        }
      }
    }

    /** The steps of REDProgram.update after the identifier: root directory, then
        command unless the root directory failed. */
    method UpdateRootAndCommand() returns (o: Outcome)
      requires kind == ProgramKind && Valid()
      modifies this`details, session.brick
      decreases |session.brick.Stream()|, 1
      ensures details == old(details).(rootDirectory := details.rootDirectory,
                                         executable := details.executable, arguments := details.arguments,
                                         environment := details.environment, workingDirectory := details.workingDirectory)
      ensures Valid()
      ensures |session.brick.Stream()| <= |old(session.brick.Stream())|
      ensures old(session.brick.calls) <= session.brick.calls
      ensures o.Pass? ==> NoReleasesSince(session.brick.calls, |old(session.brick.calls)|)
      ensures var r := BoundReply(session.sessionId, old(session.brick.Stream()));
              objectId.Some? && r.Succeeded() ==>
                |session.brick.calls| > |old(session.brick.calls)| &&
                session.brick.calls[|old(session.brick.calls)|] == GetProgramRootDirectory(objectId.value, session.sessionId.value)
      ensures o.Pass? ==>
                details.rootDirectory.Some? && details.executable.Some? && details.arguments.Some? &&
                details.environment.Some? && details.workingDirectory.Some?
    {
      ghost var c0 := session.brick.calls;
      o := UpdateRootDirectory();
      if o.Pass? {
        ghost var c1 := session.brick.calls;
        o := UpdateCommand();
        if o.Pass? {
          NoReleasesExtend(c1, session.brick.calls, |c0|);
        }
      }
    }

    /** REDProgram.update_identifier: one string id, attached or released. */
    method UpdateIdentifier() returns (o: Outcome)
      requires kind == ProgramKind && Valid()
      modifies this`details, session.brick
      decreases |session.brick.Stream()|, 0
      ensures details == old(details).(identifier := details.identifier)
      ensures Valid()
      ensures |session.brick.Stream()| <= |old(session.brick.Stream())|
      ensures old(session.brick.calls) <= session.brick.calls
      ensures o.Pass? ==> NoReleasesSince(session.brick.calls, |old(session.brick.calls)|)
      ensures objectId.None? ==>
                o == Fail(RuntimeError(Unattached(UpdateAction, ProgramNoun))) &&
                session.brick.calls == old(session.brick.calls) && details == old(details)
      ensures var r := BoundReply(session.sessionId, old(session.brick.Stream()));
              objectId.Some? && !r.Succeeded() ==>
                o == Fail(ReplyFailure(r, QueryFailed(GetIdentifierOf, ProgramNoun, objectId.value))) &&
                details == old(details) && |session.brick.calls| <= |old(session.brick.calls)| + 1
      ensures var r := BoundReply(session.sessionId, old(session.brick.Stream()));
              objectId.Some? && r.Succeeded() ==>
                |session.brick.calls| > |old(session.brick.calls)| &&
                session.brick.calls[|old(session.brick.calls)|] == GetProgramIdentifier(objectId.value, session.sessionId.value) &&
                (o.Pass? ==> Holds(details.identifier, r.Value(0))) &&
                (o.Fail? ==> details == old(details) && EndsWith(session.brick.calls, Released([r.Value(0)], session.sessionId)))
    {
      if objectId.None? {
        return Fail(RuntimeError(Unattached(UpdateAction, ProgramNoun)));
      }
      var id := objectId.value;
      ghost var c0 := session.brick.calls;
      var r := session.BoundRequest((sid: nat) => GetProgramIdentifier(id, sid));
      if !r.Succeeded() {
        return Fail(ReplyFailure(r, QueryFailed(GetIdentifierOf, ProgramNoun, id)));
      }
      OneCallReleasesNothing(c0, GetProgramIdentifier(id, session.sessionId.value));
      ghost var mid := session.brick.calls;
      assert [r.Value(0)] + [] == [r.Value(0)];
      var h := AttachOrRelease(session, StringKind, r.Value(0), []);
      if h.Err? {
        return Fail(h.error);
      }
      NoReleasesExtend(mid, session.brick.calls, |c0|);
      details := details.(identifier := Some(h.value));
      o := Pass;
    }

    /** REDProgram.update_root_directory: one string id, attached or released. */
    method UpdateRootDirectory() returns (o: Outcome)
      requires kind == ProgramKind && Valid()
      modifies this`details, session.brick
      decreases |session.brick.Stream()|, 0
      ensures details == old(details).(rootDirectory := details.rootDirectory)
      ensures Valid()
      ensures |session.brick.Stream()| <= |old(session.brick.Stream())|
      ensures old(session.brick.calls) <= session.brick.calls
      ensures o.Pass? ==> NoReleasesSince(session.brick.calls, |old(session.brick.calls)|)
      ensures objectId.None? ==>
                o == Fail(RuntimeError(Unattached(UpdateAction, ProgramNoun))) &&
                session.brick.calls == old(session.brick.calls)
      ensures var r := BoundReply(session.sessionId, old(session.brick.Stream()));
              objectId.Some? && !r.Succeeded() ==>
                o == Fail(ReplyFailure(r, QueryFailed(GetRootDirectoryOf, ProgramNoun, objectId.value))) &&
                details == old(details)
      ensures var r := BoundReply(session.sessionId, old(session.brick.Stream()));
              objectId.Some? && r.Succeeded() ==>
                |session.brick.calls| > |old(session.brick.calls)| &&
                session.brick.calls[|old(session.brick.calls)|] == GetProgramRootDirectory(objectId.value, session.sessionId.value) &&
                (o.Pass? ==> Holds(details.rootDirectory, r.Value(0))) &&
                (o.Fail? ==> details == old(details) && EndsWith(session.brick.calls, Released([r.Value(0)], session.sessionId)))
    {
      if objectId.None? {
        return Fail(RuntimeError(Unattached(UpdateAction, ProgramNoun)));
      }
      var id := objectId.value;
      ghost var c0 := session.brick.calls;
      var r := session.BoundRequest((sid: nat) => GetProgramRootDirectory(id, sid));
      if !r.Succeeded() {
        return Fail(ReplyFailure(r, QueryFailed(GetRootDirectoryOf, ProgramNoun, id)));
      }
      OneCallReleasesNothing(c0, GetProgramRootDirectory(id, session.sessionId.value));
      ghost var mid := session.brick.calls;
      assert [r.Value(0)] + [] == [r.Value(0)];
      var h := AttachOrRelease(session, StringKind, r.Value(0), []);
      if h.Err? {
        return Fail(h.error);
      }
      NoReleasesExtend(mid, session.brick.calls, |c0|);
      details := details.(rootDirectory := Some(h.value));
      o := Pass;
    }

    /** The text str() gives for the program's identifier: the string's data, or
        'None' when there is no identifier or its data is unknown. */
    function IdentifierText(): (text: seq<byte>)
      reads this, if details.identifier.Some? then {details.identifier.value} else {}
      ensures details.identifier.None? ==> text == NONE_TEXT
    {
      if details.identifier.Some? && details.identifier.value.details.data.Some? then details.identifier.value.details.data.value else NONE_TEXT
    }

    /** REDProgram.purge: the cookie is the sum of the character codes of the
        identifier's text; a failure raises. */
    method Purge() returns (o: Outcome)
      requires kind == ProgramKind
      modifies session.brick`calls, session.brick`script
      ensures objectId.None? ==>
                o == Fail(RuntimeError(Unattached(PurgeAction, ProgramNoun))) &&
                session.brick.calls == old(session.brick.calls) && session.brick.script == old(session.brick.script)
      ensures var r := Head(old(session.brick.Stream()));
              objectId.Some? ==>
                session.brick.calls == old(session.brick.calls) + [PurgeProgram(objectId.value, CodeSum(IdentifierText()))] &&
                session.brick.Stream() == Tail(old(session.brick.Stream())) &&
                o == (if r.Succeeded() then Pass
                      else Fail(ReplyFailure(r, QueryFailed(PurgeQuery, ProgramNoun, objectId.value))))
    {
      if objectId.None? {
        return Fail(RuntimeError(Unattached(PurgeAction, ProgramNoun)));
      }
      var text := IdentifierText();
      var cookie := 0;
      for i := 0 to |text|
        invariant cookie == CodeSum(text[..i])
      {
        assert text[..i + 1][..i] == text[..i];
        cookie := cookie + text[i] as nat;
      }
      assert text[..|text|] == text;
      var r := session.brick.Request(PurgeProgram(objectId.value, cookie));
      if !r.Succeeded() {
        return Fail(ReplyFailure(r, QueryFailed(PurgeQuery, ProgramNoun, objectId.value)));
      }
      o := Pass;
    }
  }

  /** The noun the messages of a process or program use for the kind. */
  function KindNoun(k: Kind): Noun
  {
    if k == ProcessKind then ProcessNoun else ProgramNoun
  }

  /** The get-command call of a process or program. */
  function CommandCall(k: Kind, id: nat, sessionId: nat): Call
  {
    if k == ProcessKind then GetProcessCommand(id, sessionId) else GetProgramCommand(id, sessionId)
  }

  /** A string update makes no release call. */
  lemma StringUpdateReleasesNothing(calls0: seq<Call>, id: nat, replies: seq<Reply>)
    ensures NoReleasesSince(calls0 + StringUpdateRun(id, replies).calls, |calls0|)
  {
    var run := StringUpdateRun(id, replies);
    StringUpdateAsksInOrder(id, replies);
    forall i | |calls0| <= i < |calls0 + run.calls|
      ensures !(calls0 + run.calls)[i].ReleaseObjectUnchecked?
    {
      assert (calls0 + run.calls)[i] == run.calls[i - |calls0|];
    }
  }

  /** Releasing twice makes at most one release call: the second is a no-op. */
  method ReleaseTwice(h: Handle)
    requires h.Valid()
    modifies h, h.session.brick`table, h.session.brick`calls
    ensures h.objectId.None?
    ensures h.session.brick.calls == old(h.session.brick.calls) + Released(IdList(old(h.objectId)), h.session.sessionId)
  {
    h.Release();
    h.Release();
  }

  /** The handles an error path drops are reclaimed, in order: the armed releaser of
      each releases the id it holds, and the listeners of each handle die. */
  method Drop(session: Session, hs: seq<Handle>, ghost ids: seq<nat>)
    requires |hs| == |ids|
    requires forall j :: 0 <= j < |hs| ==> hs[j].Valid() && hs[j].session == session && hs[j].objectId == Some(ids[j])
    modifies session.brick`table, session.brick`calls
    ensures session.brick.calls == old(session.brick.calls) + Released(ids, session.sessionId)
    ensures EndsWith(session.brick.calls, Released(ids, session.sessionId))
  {
    var i := 0;
    while i < |hs|
      invariant i <= |hs|
      invariant session.brick.calls == old(session.brick.calls) + Released(ids[..i], session.sessionId)
    {
      hs[i].Finalize();
      assert Fire(Releaser(ids[i], true), session.sessionId) == Released([ids[i]], session.sessionId);
      ReleasedJoin(old(session.brick.calls), ids[..i], [ids[i]], session.sessionId);
      assert ids[..i] + [ids[i]] == ids[..i + 1];
      i := i + 1;
    }
    assert ids[..i] == ids;
    EndsWithAppend(old(session.brick.calls), Released(ids, session.sessionId));
  }

  /** The release calls of an error path, one per id and in order; their failures
      are ignored. */
  method ReleaseEach(session: Session, ids: seq<nat>)
    modifies session.brick`calls
    ensures session.brick.calls == old(session.brick.calls) + Released(ids, session.sessionId)
  {
    var i := 0;
    while i < |ids|
      invariant i <= |ids|
      invariant session.brick.calls == old(session.brick.calls) + Released(ids[..i], session.sessionId)
    {
      session.ReleaseUnchecked(ids[i]);
      ReleasedAppend(ids[..i], [ids[i]], session.sessionId);
      assert ids[..i + 1] == ids[..i] + [ids[i]];
      i := i + 1;
    }
    assert ids[..i] == ids;
  }

  /** The first step of _attach_or_release: a new handle of kind, attached to id
      and updated. */
  method NewAttached(session: Session, kind: Kind, id: nat) returns (h: Handle, o: Outcome)
    modifies session.brick
    decreases |session.brick.Stream()|, 5
    ensures fresh(h) && h.Valid() && h.session == session && h.kind == kind
    ensures |session.brick.Stream()| <= |old(session.brick.Stream())|
    ensures old(session.brick.calls) <= session.brick.calls
    ensures kind != AttacherKind ==> h.objectId == Some(id)
    ensures kind == AttacherKind ==> o.Fail? && h.objectId.None? && session.brick.calls == old(session.brick.calls)
    ensures o.Pass? || kind == StringKind ==> NoReleasesSince(session.brick.calls, |old(session.brick.calls)|)
  {
    h := new Handle(session, kind);
    o := h.Attach(id, true);
  }

  /** _attach_or_release: a new handle of kind attached to id and updated. When that
      fails, the handle is detached, id and then each extra id are released once,
      and the error propagates; the dropped handle then releases nothing more. */
  method AttachOrRelease(session: Session, kind: Kind, id: nat, extras: seq<nat>) returns (r: Result<Handle>)
    modifies session.brick
    decreases |session.brick.Stream()|, 6
    ensures |session.brick.Stream()| <= |old(session.brick.Stream())|
    ensures old(session.brick.calls) <= session.brick.calls
    ensures r.Ok? ==>
              fresh(r.value) && r.value.Valid() && r.value.session == session &&
              r.value.kind == kind && r.value.objectId == Some(id)
    ensures r.Ok? ==> NoReleasesSince(session.brick.calls, |old(session.brick.calls)|)
    ensures r.Err? ==> EndsWith(session.brick.calls, Released([id] + extras, session.sessionId))
    ensures r.Err? && kind == StringKind ==>
              ReleasesLast(session.brick.calls, |old(session.brick.calls)|, Released([id] + extras, session.sessionId))
  {
    var h, o := NewAttached(session, kind, id);
    if o.Pass? {
      return Ok(h);
    }
    ghost var attached := session.brick.calls;
    if h.objectId.Some? {
      var _ := h.Detach();
    }
    ReleaseEach(session, [id] + extras);
    h.Finalize();
    assert session.brick.calls == attached + Released([id] + extras, session.sessionId);
    r := Err(o.error);
    if kind == StringKind {
      ReleasesLastAppend(old(session.brick.calls), attached, Released([id] + extras, session.sessionId));
    }
  }

  /** _attach_or_release exactly as written: the failed handle keeps its armed
      releaser, so when it is reclaimed it releases id a second time. */
  method AttachOrReleaseAsWritten(session: Session, kind: Kind, id: nat, extras: seq<nat>) returns (r: Result<Handle>)
    modifies session.brick
    ensures old(session.brick.calls) <= session.brick.calls
    ensures r.Ok? ==>
              fresh(r.value) && r.value.Valid() && r.value.kind == kind && r.value.objectId == Some(id)
    ensures r.Err? && kind != AttacherKind ==> EndsWith(session.brick.calls, Released([id] + extras + [id], session.sessionId))
    ensures r.Err? && kind == AttacherKind ==> EndsWith(session.brick.calls, Released([id] + extras, session.sessionId))
    ensures r.Err? && kind == StringKind ==>
              ReleasesLast(session.brick.calls, |old(session.brick.calls)|, Released([id] + extras + [id], session.sessionId))
  {
    var h, o := NewAttached(session, kind, id);
    if o.Pass? {
      return Ok(h);
    }
    ghost var mid := session.brick.calls;
    ReleaseThenFinalize(session, h, id, extras);
    r := Err(o.error);
    if kind == AttacherKind {
      EndsWithAppend(mid, Released([id] + extras, session.sessionId));
      return;
    }
    ghost var rel := Released([id] + extras + [id], session.sessionId);
    EndsWithAppend(mid, rel);
    if kind == StringKind {
      ReleasesLastAppend(old(session.brick.calls), mid, rel);
    }
  }

  /** The failure path of _attach_or_release as written: id and the extra ids are
      released, and then the dropped handle fires its releaser, which is still armed
      with id unless the handle never got an id. */
  method ReleaseThenFinalize(session: Session, h: Handle, id: nat, extras: seq<nat>)
    requires h.Valid() && h.session == session
    requires h.kind != AttacherKind ==> h.objectId == Some(id)
    requires h.kind == AttacherKind ==> h.objectId.None?
    modifies session.brick`table, session.brick`calls
    ensures h.kind != AttacherKind ==>
              session.brick.calls == old(session.brick.calls) + Released([id] + extras + [id], session.sessionId)
    ensures h.kind == AttacherKind ==>
              session.brick.calls == old(session.brick.calls) + Released([id] + extras, session.sessionId)
  {
    ReleaseEach(session, [id] + extras);
    ghost var released := session.brick.calls;
    h.Finalize();
    if h.kind != AttacherKind {
      assert session.brick.calls == released + Released([id], session.sessionId);
      ReleasedJoin(old(session.brick.calls), [id] + extras, [id], session.sessionId);
    }
  }

  lemma ReleasedJoin(calls: seq<Call>, a: seq<nat>, b: seq<nat>, sessionId: Option<nat>)
    ensures calls + Released(a, sessionId) + Released(b, sessionId) == calls + Released(a + b, sessionId)
  {
    ReleasedAppend(a, b, sessionId);
  }

  lemma {:induction false} CountAppend(a: seq<nat>, b: seq<nat>, x: nat)
    ensures Count(a + b, x) == Count(a, x) + Count(b, x)
  {
    if a != [] {
      assert (a + b)[1..] == a[1..] + b;
      CountAppend(a[1..], b, x);
    } else {
      assert a + b == b;
    }
  }

  lemma ReleasesLastAppend(c0: seq<Call>, mid: seq<Call>, releases: seq<Call>)
    requires c0 <= mid && NoReleasesSince(mid, |c0|)
    ensures ReleasesLast(mid + releases, |c0|, releases)
  {
    assert (mid + releases)[..|mid|] == mid;
    assert (mid + releases)[|mid|..] == releases;
  }

  /** When the releases of ids come last, each id is released from n on exactly as
      often as it occurs in ids. */
  lemma ReleasesLastCount(calls: seq<Call>, n: nat, ids: seq<nat>, sid: nat, id: nat)
    requires ReleasesLast(calls, n, Released(ids, Some(sid)))
    ensures Occurrences(calls[n..], ReleaseObjectUnchecked(id, sid)) == Count(ids, id)
  {
    var rel := Released(ids, Some(sid));
    var m := |calls| - |rel|;
    assert calls[n..] == calls[..m][n..] + rel;
    OccurrencesAppend(calls[..m][n..], rel, ReleaseObjectUnchecked(id, sid));
    NoReleaseOccurs(calls[..m][n..], id, sid);
    ReleasedCounts(ids, sid, id);
  }

  /** A failed attach of a string releases its id exactly once, besides the extras
      that are the same id. */
  lemma FailedAttachReleasesOnce(calls: seq<Call>, n: nat, id: nat, extras: seq<nat>, sid: nat)
    requires ReleasesLast(calls, n, Released([id] + extras, Some(sid)))
    ensures Occurrences(calls[n..], ReleaseObjectUnchecked(id, sid)) == 1 + Count(extras, id)
  {
    ReleasesLastCount(calls, n, [id] + extras, sid, id);
    assert ([id] + extras)[1..] == extras;
  }

  /** As written, a failed attach of a string releases its id twice. */
  lemma FailedAttachReleasesTwice(calls: seq<Call>, n: nat, id: nat, extras: seq<nat>, sid: nat)
    requires ReleasesLast(calls, n, Released([id] + extras + [id], Some(sid)))
    ensures Occurrences(calls[n..], ReleaseObjectUnchecked(id, sid)) == 2 + Count(extras, id)
  {
    ReleasesLastCount(calls, n, [id] + extras + [id], sid, id);
    assert [id] + extras + [id] == [id] + (extras + [id]);
    assert ([id] + (extras + [id]))[1..] == extras + [id];
    CountAppend(extras, [id], id);
    assert Count([id], id) == 1 + Count([], id);
  }

  /** The attach-or-release of each of several ids fetched by one call, in order,
      each with the later ids as extras: the ids before the first failure are held
      by the returned handles, and the rest are released. */
  method FetchSiblings(session: Session, kinds: seq<Kind>, ids: seq<nat>) returns (hs: seq<Handle>, o: Outcome)
    requires |kinds| == |ids|
    modifies session.brick
    decreases |session.brick.Stream()|, 7
    ensures |session.brick.Stream()| <= |old(session.brick.Stream())|
    ensures old(session.brick.calls) <= session.brick.calls
    ensures |hs| <= |ids|
    ensures forall j :: 0 <= j < |hs| ==>
              fresh(hs[j]) && hs[j].Valid() && hs[j].session == session &&
              hs[j].kind == kinds[j] && hs[j].objectId == Some(ids[j])
    ensures o.Pass? <==> |hs| == |ids|
    ensures o.Pass? ==> NoReleasesSince(session.brick.calls, |old(session.brick.calls)|)
    ensures o.Fail? ==> EndsWith(session.brick.calls, Released(ids[|hs|..], session.sessionId))
  {
    hs := [];
    var i := 0;
    while i < |ids|
      invariant i == |hs| <= |ids|
      invariant |session.brick.Stream()| <= |old(session.brick.Stream())|
      invariant old(session.brick.calls) <= session.brick.calls
      invariant NoReleasesSince(session.brick.calls, |old(session.brick.calls)|)
      invariant forall j :: 0 <= j < |hs| ==>
                  fresh(hs[j]) && hs[j].Valid() && hs[j].session == session &&
                  hs[j].kind == kinds[j] && hs[j].objectId == Some(ids[j])
      decreases |ids| - i
    {
      ghost var before := session.brick.calls;
      var r := AttachOrRelease(session, kinds[i], ids[i], ids[i + 1..]);
      if r.Err? {
        assert [ids[i]] + ids[i + 1..] == ids[i..];
        return hs, Fail(r.error);
      }
      NoReleasesExtend(before, session.brick.calls, |old(session.brick.calls)|);
      hs := hs + [r.value];
      i := i + 1;
    }
    o := Pass;
  }

  /** One item of REDList.update: the wrapper class its type names, attached or
      released. An unknown type raises, and the item id is released first. */
  method DecodeItem(session: Session, listId: nat, index: nat, itemId: nat, tag: nat) returns (r: Result<Handle>)
    modifies session.brick
    decreases |session.brick.Stream()|, 7
    ensures |session.brick.Stream()| <= |old(session.brick.Stream())|
    ensures old(session.brick.calls) <= session.brick.calls
    ensures WrapperFor(tag).None? ==>
              r == Err(TypeError(UnknownItemType(listId, tag, index))) &&
              session.brick.calls == old(session.brick.calls) + Released([itemId], session.sessionId)
    ensures WrapperFor(tag).Some? && r.Ok? ==>
              fresh(r.value) && r.value.Valid() && r.value.session == session &&
              r.value.kind == KindOf(WrapperFor(tag).value) && r.value.objectId == Some(itemId) &&
              NoReleasesSince(session.brick.calls, |old(session.brick.calls)|)
    ensures WrapperFor(tag).Some? && r.Err? ==> EndsWith(session.brick.calls, Released([itemId], session.sessionId))
  {
    var w := WrapperFor(tag);
    if w.None? {
      session.ReleaseUnchecked(itemId);
      return Err(TypeError(UnknownItemType(listId, tag, index)));
    }
    assert [itemId] + [] == [itemId];
    r := AttachOrRelease(session, KindOf(w.value), itemId, []);
  }

  /** One item of REDList.update as written: an unknown type raises without
      releasing the item id. */
  method DecodeItemAsWritten(session: Session, listId: nat, index: nat, itemId: nat, tag: nat) returns (r: Result<Handle>)
    modifies session.brick
    ensures WrapperFor(tag).None? ==>
              r == Err(TypeError(UnknownItemType(listId, tag, index))) &&
              session.brick.calls == old(session.brick.calls)
    ensures WrapperFor(tag).Some? && r.Err? ==> EndsWith(session.brick.calls, Released([itemId], session.sessionId))
  {
    var w := WrapperFor(tag);
    if w.None? {
      return Err(TypeError(UnknownItemType(listId, tag, index)));
    }
    assert [itemId] + [] == [itemId];
    r := AttachOrRelease(session, KindOf(w.value), itemId, []);
  }

  /** at lists the positions in the log of the get-list-item calls for indices
      0, 1, …, in increasing order. */
  ghost predicate ItemCallsAt(calls: seq<Call>, at: seq<nat>, listId: nat, sid: nat)
  {
    (forall j :: 0 <= j < |at| ==> at[j] < |calls| && calls[at[j]] == GetListItem(listId, j, sid)) &&
    (forall j, k :: 0 <= j < k < |at| ==> at[j] < at[k])
  }

  lemma ItemCallsGrow(a: seq<Call>, b: seq<Call>, at: seq<nat>, listId: nat, sid: nat)
    requires a <= b && ItemCallsAt(a, at, listId, sid)
    ensures ItemCallsAt(b, at, listId, sid)
  {
    forall j | 0 <= j < |at| ensures b[at[j]] == a[at[j]] {
    }
  }

  /** A log that grew past a get-list-item call for the next index keeps the old
      positions and adds that call's. */
  lemma ItemCallsExtend(a: seq<Call>, b: seq<Call>, at: seq<nat>, listId: nat, sid: nat)
    requires a <= b && ItemCallsAt(a, at, listId, sid)
    requires |b| > |a| && b[|a|] == GetListItem(listId, |at|, sid)
    ensures ItemCallsAt(b, at + [|a|], listId, sid)
  {
    ItemCallsGrow(a, b, at, listId, sid);
  }

  /** One index of the item loop of REDList.update: the item's id and type, decoded
      into a handle. */
  method FetchItem(session: Session, listId: nat, index: nat) returns (r: Result<Handle>, ghost id: nat)
    modifies session.brick
    decreases |session.brick.Stream()|, 8
    ensures |session.brick.Stream()| <= |old(session.brick.Stream())|
    ensures old(session.brick.calls) <= session.brick.calls
    ensures r.Ok? ==>
              fresh(r.value) && r.value.Valid() && r.value.session == session && r.value.objectId == Some(id) &&
              NoReleasesSince(session.brick.calls, |old(session.brick.calls)|)
    ensures session.sessionId.None? ==> r == Err(TransportError) && session.brick.calls == old(session.brick.calls)
    ensures session.sessionId.Some? ==>
              |session.brick.calls| > |old(session.brick.calls)| &&
              session.brick.calls[|old(session.brick.calls)|] == GetListItem(listId, index, session.sessionId.value) &&
              id == Head(old(session.brick.Stream())).Value(0)
    ensures var item := BoundReply(session.sessionId, old(session.brick.Stream()));
            !item.Succeeded() ==> r == Err(ReplyFailure(item, ItemFailed(index, listId)))
  {
    ghost var start := session.brick.calls;
    var item := session.BoundRequest((sid: nat) => GetListItem(listId, index, sid));
    id := item.Value(0);
    if !item.Succeeded() {
      return Err(ReplyFailure(item, ItemFailed(index, listId))), id;
    }
    ghost var before := session.brick.calls;
    r := DecodeItem(session, listId, index, item.Value(0), item.Value(1));
    if r.Ok? {
      NoReleasesExtend(before, session.brick.calls, |start|);
    }
  }

  /** The item loop of REDList.update: for each index in order, the item's id and
      type, decoded into a handle; the first failure raises, and the items fetched
      before it, dropped with the frame, are reclaimed and release their ids. */
  method FetchItems(session: Session, listId: nat, length: nat)
    returns (hs: seq<Handle>, ghost ids: seq<nat>, ghost at: seq<nat>, o: Outcome)
    modifies session.brick
    decreases |session.brick.Stream()|, 10
    ensures |session.brick.Stream()| <= |old(session.brick.Stream())|
    ensures old(session.brick.calls) <= session.brick.calls
    ensures |hs| <= length && (o.Pass? <==> |hs| == length)
    ensures forall h :: h in hs ==> fresh(h) && h.Valid() && h.session == session && h.objectId.Some?
    ensures |ids| == |hs| && forall j :: 0 <= j < |hs| ==> hs[j].objectId == Some(ids[j])
    ensures o.Pass? ==> NoReleasesSince(session.brick.calls, |old(session.brick.calls)|)
    ensures o.Fail? ==> EndsWith(session.brick.calls, Released(ids, session.sessionId))
    ensures session.sessionId.None? && length > 0 ==>
              o == Fail(TransportError) && session.brick.calls == old(session.brick.calls)
    ensures session.sessionId.Some? ==>
              ItemCallsAt(session.brick.calls, at, listId, session.sessionId.value) &&
              |at| == (if o.Pass? then length else |hs| + 1)
  {
    var failure;
    hs, ids, at, failure := CollectItems(session, listId, length);
    if failure.None? {
      return hs, ids, at, Pass;
    }
    ghost var fetched := session.brick.calls;
    Drop(session, hs, ids);
    if session.sessionId.Some? {
      ItemCallsGrow(fetched, session.brick.calls, at, listId, session.sessionId.value);
    }
    o := Fail(failure.value);
  }

  /** The items of FetchItems up to the length or the first failure, which is
      returned beside the items fetched before it. */
  method CollectItems(session: Session, listId: nat, length: nat)
    returns (hs: seq<Handle>, ghost ids: seq<nat>, ghost at: seq<nat>, failure: Option<Failure>)
    modifies session.brick
    decreases |session.brick.Stream()|, 9
    ensures |session.brick.Stream()| <= |old(session.brick.Stream())|
    ensures old(session.brick.calls) <= session.brick.calls
    ensures |hs| <= length && (failure.None? <==> |hs| == length)
    ensures forall h :: h in hs ==> fresh(h) && h.Valid() && h.session == session && h.objectId.Some?
    ensures |ids| == |hs| && forall j :: 0 <= j < |hs| ==> hs[j].objectId == Some(ids[j])
    ensures failure.None? ==> NoReleasesSince(session.brick.calls, |old(session.brick.calls)|)
    ensures session.sessionId.None? && length > 0 ==>
              failure == Some(TransportError) && hs == [] && session.brick.calls == old(session.brick.calls)
    ensures session.sessionId.Some? ==>
              ItemCallsAt(session.brick.calls, at, listId, session.sessionId.value) &&
              |at| == (if failure.None? then length else |hs| + 1)
  {
    hs, ids, at := [], [], [];
    var i := 0;
    while i < length
      invariant i == |hs| <= length
      invariant |ids| == |hs| && forall j :: 0 <= j < |hs| ==> hs[j].objectId == Some(ids[j])
      invariant |session.brick.Stream()| <= |old(session.brick.Stream())|
      invariant old(session.brick.calls) <= session.brick.calls
      invariant NoReleasesSince(session.brick.calls, |old(session.brick.calls)|)
      invariant forall h :: h in hs ==> fresh(h) && h.Valid() && h.session == session && h.objectId.Some?
      invariant session.sessionId.None? ==> i == 0 && session.brick.calls == old(session.brick.calls)
      invariant session.sessionId.Some? ==> |at| == i && ItemCallsAt(session.brick.calls, at, listId, session.sessionId.value)
      decreases length - i
    {
      ghost var before := session.brick.calls;
      var h;
      ghost var id;
      h, id := FetchItem(session, listId, i);
      if session.sessionId.Some? {
        ItemCallsExtend(before, session.brick.calls, at, listId, session.sessionId.value);
        at := at + [|before|];
      }
      if h.Err? {
        return hs, ids, at, Some(h.error);
      }
      NoReleasesExtend(before, session.brick.calls, |old(session.brick.calls)|);
      hs, ids := hs + [h.value], ids + [id];
      i := i + 1;
    }
    failure := None;
  }

  /** One step of the entry loop of REDDirectory.update: the next entry, with its name
      attached or released, or None once the server reports E_NO_MORE_DATA. */
  method FetchEntry(session: Session, dirId: nat) returns (r: Result<Option<(Handle, nat)>>, ghost id: nat)
    modifies session.brick
    decreases |session.brick.Stream()|, 8
    ensures |session.brick.Stream()| <= |old(session.brick.Stream())|
    ensures old(session.brick.calls) <= session.brick.calls
    ensures r.Ok? ==> NoReleasesSince(session.brick.calls, |old(session.brick.calls)|)
    ensures r.Ok? && r.value.Some? ==>
              |session.brick.Stream()| < |old(session.brick.Stream())| &&
              var e := r.value.value;
              fresh(e.0) && e.0.Valid() && e.0.session == session && e.0.kind == StringKind && e.0.objectId == Some(id)
    ensures session.sessionId.None? ==> r == Err(TransportError) && session.brick.calls == old(session.brick.calls)
    ensures session.sessionId.Some? ==>
              |session.brick.calls| > |old(session.brick.calls)| &&
              session.brick.calls[|old(session.brick.calls)|] == GetNextDirectoryEntry(dirId, session.sessionId.value) &&
              id == Head(old(session.brick.Stream())).Value(0)
    ensures var next := BoundReply(session.sessionId, old(session.brick.Stream()));
            (r.Ok? && r.value.None? <==> next.Answer? && next.code == E_NO_MORE_DATA) &&
            (!next.Succeeded() && !(next.Answer? && next.code == E_NO_MORE_DATA) ==>
               r == Err(ReplyFailure(next, QueryFailed(GetNextEntryOf, DirectoryNoun, dirId)))) &&
            (r.Ok? && r.value.Some? ==> r.value.value.1 == next.Value(1))
  {
    ghost var start := session.brick.calls;
    var next := session.BoundRequest((sid: nat) => GetNextDirectoryEntry(dirId, sid));
    id := next.Value(0);
    if next.Answer? && next.code == E_NO_MORE_DATA {
      return Ok(None), id;
    }
    if !next.Succeeded() {
      return Err(ReplyFailure(next, QueryFailed(GetNextEntryOf, DirectoryNoun, dirId))), id;
    }
    ghost var before := session.brick.calls;
    assert [next.Value(0)] + [] == [next.Value(0)];
    var e := AttachOrRelease(session, StringKind, next.Value(0), []);
    if e.Err? {
      return Err(e.error), id;
    }
    NoReleasesExtend(before, session.brick.calls, |start|);
    r := Ok(Some((e.value, next.Value(1))));
  }

  /** The entry loop of REDDirectory.update: the next entry until the server reports
      E_NO_MORE_DATA, each entry's name attached or released; the first failure
      raises, and the names fetched before it, dropped with the frame, are
      reclaimed and release their ids. */
  method FetchEntries(session: Session, dirId: nat) returns (found: seq<(Handle, nat)>, ghost ids: seq<nat>, o: Outcome)
    modifies session.brick
    decreases |session.brick.Stream()|, 10
    ensures |session.brick.Stream()| <= |old(session.brick.Stream())|
    ensures old(session.brick.calls) <= session.brick.calls
    ensures forall j :: 0 <= j < |found| ==>
              fresh(found[j].0) && found[j].0.Valid() && found[j].0.session == session && found[j].0.kind == StringKind && found[j].0.objectId.Some?
    ensures |ids| == |found| && forall j :: 0 <= j < |found| ==> found[j].0.objectId == Some(ids[j])
    ensures o.Pass? ==> NoReleasesSince(session.brick.calls, |old(session.brick.calls)|)
    ensures o.Fail? ==> EndsWith(session.brick.calls, Released(ids, session.sessionId))
    ensures session.sessionId.None? ==> o == Fail(TransportError) && session.brick.calls == old(session.brick.calls)
  {
    var failure;
    found, ids, failure := CollectEntries(session, dirId);
    if failure.Some? {
      DropEntries(session, found, ids);
      o := Fail(failure.value);
    } else {
      o := Pass;
    }
  }

  /** The entries of FetchEntries up to E_NO_MORE_DATA or the first failure, which
      is returned beside the entries fetched before it. */
  method CollectEntries(session: Session, dirId: nat) returns (found: seq<(Handle, nat)>, ghost ids: seq<nat>, failure: Option<Failure>)
    modifies session.brick
    decreases |session.brick.Stream()|, 9
    ensures |session.brick.Stream()| <= |old(session.brick.Stream())|
    ensures old(session.brick.calls) <= session.brick.calls
    ensures forall j :: 0 <= j < |found| ==>
              fresh(found[j].0) && found[j].0.Valid() && found[j].0.session == session && found[j].0.kind == StringKind && found[j].0.objectId.Some?
    ensures |ids| == |found| && forall j :: 0 <= j < |found| ==> found[j].0.objectId == Some(ids[j])
    ensures failure.None? ==> NoReleasesSince(session.brick.calls, |old(session.brick.calls)|)
    ensures session.sessionId.None? ==>
              failure == Some(TransportError) && found == [] && session.brick.calls == old(session.brick.calls)
  {
    found, ids := [], [];
    while true
      invariant |ids| == |found| && forall j :: 0 <= j < |found| ==> found[j].0.objectId == Some(ids[j])
      invariant |session.brick.Stream()| <= |old(session.brick.Stream())|
      invariant old(session.brick.calls) <= session.brick.calls
      invariant NoReleasesSince(session.brick.calls, |old(session.brick.calls)|)
      invariant forall j :: 0 <= j < |found| ==>
                  fresh(found[j].0) && found[j].0.Valid() && found[j].0.session == session && found[j].0.kind == StringKind && found[j].0.objectId.Some?
      invariant session.sessionId.None? ==> found == [] && session.brick.calls == old(session.brick.calls)
      decreases |session.brick.Stream()|
    {
      ghost var before := session.brick.calls;
      var e;
      ghost var id;
      e, id := FetchEntry(session, dirId);
      if e.Err? {
        return found, ids, Some(e.error);
      }
      NoReleasesExtend(before, session.brick.calls, |old(session.brick.calls)|);
      if e.value.None? {
        return found, ids, None;
      }
      found, ids := found + [e.value.value], ids + [id];
    }
  }

  /** The entries fetched before a failure are reclaimed with the frame that held them. */
  method DropEntries(session: Session, found: seq<(Handle, nat)>, ghost ids: seq<nat>)
    requires |found| == |ids|
    requires forall j :: 0 <= j < |found| ==> found[j].0.objectId == Some(ids[j])
    requires forall j :: 0 <= j < |found| ==> found[j].0.Valid() && found[j].0.session == session
    modifies session.brick`table, session.brick`calls
    ensures session.brick.calls == old(session.brick.calls) + Released(ids, session.sessionId)
    ensures EndsWith(session.brick.calls, Released(ids, session.sessionId))
  {
    var hs := seq(|found|, j requires 0 <= j < |found| => found[j].0);
    Drop(session, hs, ids);
  }

  // ----------------------------------------------------------------- REDProgram.purge

  /** The purge cookie: the sum of the character codes of the identifier's text. */
  function CodeSum(text: seq<byte>): nat
  {
    if text == [] then 0 else CodeSum(text[..|text| - 1]) + text[|text| - 1] as nat
  }

  lemma {:induction false} CodeSumAppend(a: seq<byte>, b: seq<byte>)
    ensures CodeSum(a + b) == CodeSum(a) + CodeSum(b)
    decreases |b|
  {
    if b == [] {
      assert a + b == a;
    } else {
      assert (a + b)[..|a + b| - 1] == a + b[..|b| - 1];
      CodeSumAppend(a, b[..|b| - 1]);
    }
  }

  /** The cookie does not depend on the order of the characters. */
  lemma CodeSumSwap(a: seq<byte>, b: seq<byte>)
    ensures CodeSum(a + b) == CodeSum(b + a)
  {
    CodeSumAppend(a, b);
    CodeSumAppend(b, a);
  }

  /** Each character adds at most 255. */
  lemma {:induction false} CodeSumBound(text: seq<byte>)
    ensures CodeSum(text) <= 255 * |text|
  {
    if text != [] {
      CodeSumBound(text[..|text| - 1]);
    }
  }

  // ------------------------------------------------------ REDList.update type dispatch

  const TYPE_STRING: nat := 0
  const TYPE_LIST: nat := 1
  const TYPE_FILE: nat := 2
  const TYPE_DIRECTORY: nat := 3
  const TYPE_PROCESS: nat := 4
  const TYPE_PROGRAM: nat := 5

  /** The wrapper classes a list item can be attached with. */
  datatype Wrapper = StringWrapper | ListWrapper | FileOrPipeWrapper | DirectoryWrapper | ProcessWrapper | ProgramWrapper

  /** REDObject._subclasses. */
  function WrapperFor(tag: nat): (w: Option<Wrapper>)
    ensures w.None? <==> tag > TYPE_PROGRAM
  {
    if tag == TYPE_STRING then Some(StringWrapper)
    else if tag == TYPE_LIST then Some(ListWrapper)
    else if tag == TYPE_FILE then Some(FileOrPipeWrapper)
    else if tag == TYPE_DIRECTORY then Some(DirectoryWrapper)
    else if tag == TYPE_PROCESS then Some(ProcessWrapper)
    else if tag == TYPE_PROGRAM then Some(ProgramWrapper)
    else None
  }

  /** The object type each wrapper class stands for. */
  function TagOf(w: Wrapper): nat
  {
    match w
    case StringWrapper => TYPE_STRING
    case ListWrapper => TYPE_LIST
    case FileOrPipeWrapper => TYPE_FILE
    case DirectoryWrapper => TYPE_DIRECTORY
    case ProcessWrapper => TYPE_PROCESS
    case ProgramWrapper => TYPE_PROGRAM
  }

  /** The table is a bijection between the six object types and the six wrappers. */
  lemma WrapperTableBijective(tag: nat, w: Wrapper)
    ensures WrapperFor(TagOf(w)) == Some(w)
    ensures WrapperFor(tag) == Some(w) <==> tag == TagOf(w)
  {
  }
}
