# RED Brick remote-object client, in Dafny

This project models the client side of the RED Brick API wrapper
(`src/brickv/plugin_system/plugins/red/api.py`). The program talks to a RED Brick
through a binding whose every call returns an integer error code. The model
covers five parts:

- **Callback table** (`REDBrick`). Each push-event has listeners ordered by a
  cookie taken from a counter that only goes up. The binding subscription is
  made only for an event's first listener. Dispatch invokes the live listeners
  of a snapshot of the cookies and prunes the dead ones. The snapshot's order is
  that of the dictionary's key listing, which the model leaves open: any order
  that lists each cookie once.
- **Session and handle lifecycle** (`REDSession`, `REDObjectReleaser`,
  `REDObject.attach/detach/release`, `_attach_or_release`). A session holds an
  optional session id and a keep-alive flag. A handle holds an optional object
  id and a releaser with an `armed` flag. When the list-item or
  directory-entry loop fails, the handles it fetched before the failure are
  reclaimed, so their releasers release those ids. The error paths follow the
  corrected `_attach_or_release` and item decoding of "## Findings".
- **Chunked transfers**. `_get_zero_padded_chunk`; the string get-chunk and
  set-chunk loops of `REDString.update/allocate`; the synchronous
  `REDFileBase.read/write` loops.
- **Asynchronous file transfer**. Bursts of at most 1999 unchecked writes,
  each followed by one acknowledged write whose completion event starts the
  next burst. A push-driven read accumulator. One running job of each kind per
  file.
- **Small pure pieces**. The error-code name table and `REDError.__str__`;
  the type-tag table of `REDObject._subclasses` used by `REDList.update`; the
  purge cookie of `REDProgram.purge`.

## How the model is built

- **Errors** (`errors.dfy`): the error-code constants, the code-name table,
  and `REDError.__str__`. A raised error's message is a `Message` value, one
  constructor per format string the client uses. `Text` renders it, and the
  model compares messages as values.
- **Chunks** (`chunks.dfy`): `ZeroPaddedChunk`, and the split of data into
  consecutive pieces (`Pieces`/`Join`) that the chunk loops follow.
- **Transport** (`transport.dfy`): the binding and `REDBrick` as one class,
  `Transport.Brick`.
  - `calls` logs every call the client makes, with its arguments.
  - `script` holds the replies that checked calls receive, in order. A reply
    is either an error code with results, or `Lost`, which stands for a
    binding exception (not connected, or a timeout once the script is
    exhausted).
  - The callback table is a map from event to entries ordered by cookie.
    A weak listener is an entry whose listener has an `alive` flag.
  - `Dispatch` takes the snapshot's listing of the cookies as a parameter.
- **Sessions** (`sessions.dfy`): `REDSession` as a class. The Qt keep-alive
  timer is the flag `keepAliveRunning`.
- **Transfers** (`transfers.dfy`): each chunk loop as a specification
  function. The function consumes the reply stream and returns the calls
  made, the replies left over and the result. A `method` runs the same loop
  against the brick and is proved equal to the function. Lemmas state what
  each loop promises.
- **Objects** (`objects.dfy`): `REDObject` and its subclasses as one class,
  `Objects.Handle`, with a `kind`. Its fields are the object id, the
  releaser, the callback cookies, the running write and read jobs, and the
  emitted signals. What the server reported is held in one `Details` record,
  with a field per attribute of any kind. A kind's update sets only its own
  fields, and `_initialize` resets the whole record.
  - Weak-reference finalisation is the explicit `Finalize` method. It fires
    the releaser and marks the handle's listeners dead.
  - The handle's own updates call `_attach_or_release`, which creates and
    updates new handles. This recursion terminates because every level
    consumes a reply first. Ranks break ties between methods at the same
    stream length.

Termination of every loop is by the length of the reply stream. This includes
`write`, whose progress depends on the server reporting a positive length. So
no assumption about the server is needed for termination, and
`Transfers.ZeroWrittenRepeats` shows what a zero length does.

## Model

| member | source | states |
|---|---|---|
| Errors.Text | src/brickv/plugin_system/plugins/red/api.py:406 | every message the client raises has a non-empty text |
| Errors.CodeName | src/brickv/plugin_system/plugins/red/api.py:64-95 | a code in the table gets its `E_…` name; any other code gets `<unknown>` |
| Errors.UnknownExactlyForUnnamed | src/brickv/plugin_system/plugins/red/api.py:105 | the `<unknown>` fallback appears exactly for codes missing from the table (no table name reads `<unknown>`) |
| Errors.Decimal | src/brickv/plugin_system/plugins/red/api.py:104-106 | the code's decimal text is non-empty, all digits, without a leading zero |
| Errors.DecimalRoundTrip | src/brickv/plugin_system/plugins/red/api.py:104-106 | reading the decimal text back gives the code |
| Errors.Render | src/brickv/plugin_system/plugins/red/api.py:104-106 | the text is the message, `: `, the name, then ` (<digits>)` |
| Errors.ErrorText | src/brickv/plugin_system/plugins/red/api.py:103-106 | `__str__` starts with the message and `: `, then the table name of the code (or `<unknown>`), then the code in parentheses |
| Errors.CodeReadableFromText | src/brickv/plugin_system/plugins/red/api.py:103-106 | the code can be read back from the digits inside the trailing parentheses |
| Chunks.ZeroPaddedChunk | src/brickv/plugin_system/plugins/red/api.py:528-533 | the chunk is exactly maxLength bytes; its first min(maxLength, max(0, len-start)) bytes are data[start…] and the rest are zero |
| Chunks.ChunkPrefix | src/brickv/plugin_system/plugins/red/api.py:528-533 | the unpadded part of a chunk is the slice data[start:start+n] |
| Chunks.PiecesJoin | src/brickv/plugin_system/plugins/red/api.py:439-450 | the pieces the loops send concatenate back to the data |
| Chunks.PiecesShape | src/brickv/plugin_system/plugins/red/api.py:439-450 | every piece is 1..m bytes, all but the last exactly m, each at the offset where the bytes before it end |
| Chunks.PiecesCount | src/brickv/plugin_system/plugins/red/api.py:441-443 | the number of pieces is the length divided by m, rounded up |
| Chunks.JoinAppend | src/brickv/plugin_system/plugins/red/api.py:441-450 | joining two runs of pieces is the concatenation of their joins |
| Transport.ReplyFailure | src/brickv/plugin_system/plugins/red/api.py:221-222 | a lost reply becomes a transport error; an answered one becomes a remote error with its non-success code |
| Transport.Brick.constructor | src/brickv/plugin_system/plugins/red/api.py:133-138 | a new brick has no listeners, no subscriptions and a cookie counter at 1 |
| Transport.Brick.Request | src/brickv/plugin_system/plugins/red/api.py:219 | a checked call is logged and gets the next scripted reply, or Lost once the script is exhausted |
| Transport.Brick.Send | src/brickv/plugin_system/plugins/red/api.py:245 | an unchecked call is logged and raises only when not connected |
| Transport.Brick.AddCallback | src/brickv/plugin_system/plugins/red/api.py:162-174 | the cookie is the counter, which goes up by one; the entry is appended to the event's listeners; the subscription is made exactly when the event had no entry; cookies stay increasing |
| Transport.Brick.RemoveCallback | src/brickv/plugin_system/plugins/red/api.py:176-182 | an unknown event or cookie leaves the table unchanged; otherwise exactly that cookie's entry goes |
| Transport.Brick.RemoveAllCallbacks | src/brickv/plugin_system/plugins/red/api.py:184-188 | the table and the subscriptions are empty afterwards, so a later add subscribes again |
| Transport.Brick.Collect | src/brickv/plugin_system/plugins/red/api.py:116-129 | the listeners of a reclaimed owner become dead; cookies and events stay |
| Transport.Brick.Dispatch | src/brickv/plugin_system/plugins/red/api.py:140-160 | for any listing of the event's cookies, the table after dispatch and the deliveries made are those of the dispatch pass over that listing; an event without listeners changes nothing |
| Transport.Brick.InvokeListeners | src/brickv/plugin_system/plugins/red/api.py:144-156 | the loop over the snapshot computes the dispatch pass: the remaining entries, the listeners invoked in order, the dead cookies |
| Transport.Brick.Deliver | src/brickv/plugin_system/plugins/red/api.py:150-152 | invoking one more listener appends its delivery after those of the listeners invoked before |
| Transport.Without | src/brickv/plugin_system/plugins/red/api.py:176-182 | removing cookies keeps exactly the entries whose cookie is not removed |
| Transport.Killed | src/brickv/plugin_system/plugins/red/api.py:116-129 | marking an owner dead keeps every entry's cookie and owner |
| Transport.PruneDead | src/brickv/plugin_system/plugins/red/api.py:158-160 | deleting the dead cookies leaves exactly the live entries |
| Transport.LiveMembers | src/brickv/plugin_system/plugins/red/api.py:150-160 | the live entries are exactly the entries whose listener is alive |
| Transport.DeadCookiesFound | src/brickv/plugin_system/plugins/red/api.py:150-156 | a cookie is collected as dead exactly when its listener is dead |
| Transport.FindInIncreasing | src/brickv/plugin_system/plugins/red/api.py:146 | looking up a cookie in the table finds its listener |
| Transport.WithoutIncreasing | src/brickv/plugin_system/plugins/red/api.py:182 | removal keeps the cookies increasing |
| Transport.PassShrinks | src/brickv/plugin_system/plugins/red/api.py:144-160 | a dispatch pass only removes entries and keeps cookie order |
| Transport.PassInvoked | src/brickv/plugin_system/plugins/red/api.py:144-152 | over a snapshot without repeated cookies, a pass invokes only live listeners of the table whose cookie is in the snapshot, no cookie twice, in the snapshot's order |
| Transport.PassDead | src/brickv/plugin_system/plugins/red/api.py:150-156 | every dead snapshot listener still present is collected, and only dead ones are |
| Transport.PassKeeps | src/brickv/plugin_system/plugins/red/api.py:144-160 | a listener no other listener removes stays, and is invoked if live and in the snapshot |
| Transport.PassWithoutReentry | src/brickv/plugin_system/plugins/red/api.py:144-156 | without removals during the pass, the table is unchanged, the invoked listeners are exactly the live ones whose cookie is in the snapshot, and the dead cookies collected are exactly the snapshot's dead ones |
| Transport.DispatchWithoutReentry | src/brickv/plugin_system/plugins/red/api.py:140-160 | without removals, dispatch over any listing of the cookies leaves exactly the live entries in the table and invokes exactly the live listeners |
| Transport.DispatchPrunes | src/brickv/plugin_system/plugins/red/api.py:140-160 | for any listing and whatever listeners remove meanwhile, afterwards only live entries of the old table remain |
| Transport.DispatchInvokesOnce | src/brickv/plugin_system/plugins/red/api.py:144-152 | for any listing, each invoked listener is live and in the table, no cookie is invoked twice, and the invocations follow the listing's order |
| Transport.DispatchKeepsUntouched | src/brickv/plugin_system/plugins/red/api.py:140-160 | for any listing, a live listener nobody removes is invoked and stays registered |
| Transport.DeliveriesAppend | src/brickv/plugin_system/plugins/red/api.py:152 | the deliveries of two runs of invocations concatenate |
| Sessions.ExpireCalls | src/brickv/plugin_system/plugins/red/api.py:231-245 | expire makes a call exactly when there is a session, and the call carries its id |
| Sessions.Released | src/brickv/plugin_system/plugins/red/api.py:259-269 | without a session id nothing is released; otherwise one release call per id, in order |
| Sessions.ReleasedAppend | src/brickv/plugin_system/plugins/red/api.py:259-269 | releasing a then b makes the calls of releasing a + b |
| Sessions.ReleasedCounts | src/brickv/plugin_system/plugins/red/api.py:259-269 | each id is released as often as it occurs in the list |
| Sessions.OccurrencesAppend | src/brickv/plugin_system/plugins/red/api.py:259-269 | occurrences in a concatenated call log add up |
| Sessions.Session.constructor | src/brickv/plugin_system/plugins/red/api.py:195-201 | a new session has no id and a stopped timer |
| Sessions.Session.Expire | src/brickv/plugin_system/plugins/red/api.py:231-248 | no session: nothing changes; otherwise the timer stops, all callbacks go, the id is forgotten, then one expire call with the old id |
| Sessions.Session.Create | src/brickv/plugin_system/plugins/red/api.py:216-228 | expire first, then create; on success store the id and start the timer; on failure raise and have no session |
| Sessions.Session.KeepAlive | src/brickv/plugin_system/plugins/red/api.py:209-214 | one keep-alive call with the id and the 35-second lifetime; a failure is ignored |
| Sessions.Session.BoundRequest | src/brickv/plugin_system/plugins/red/api.py:705 | a call carrying the session id; without a session nothing is sent and the call fails |
| Sessions.Session.ReleaseUnchecked | src/brickv/plugin_system/plugins/red/api.py:258-262 | one release call when there is a session id, none otherwise |
| Sessions.ExpireTwice | src/brickv/plugin_system/plugins/red/api.py:231-234 | expiring twice makes no second expire call |
| Transfers.GetChunksRun | src/brickv/plugin_system/plugins/red/api.py:413-421 | the chunk loop never uses more replies than it is given |
| Transfers.GetChunksLogged | src/brickv/plugin_system/plugins/red/api.py:415-421 | the loop with its call log carried along appends the calls of the specification to that log |
| Transfers.GetChunksOnlyReads | src/brickv/plugin_system/plugins/red/api.py:415-416 | the chunk loop only asks for string chunks |
| Transfers.GetChunksOffsets | src/brickv/plugin_system/plugins/red/api.py:415-421 | the k-th request asks at the offset equal to the bytes received before it |
| Transfers.GetChunksResult | src/brickv/plugin_system/plugins/red/api.py:415-423 | on success the data is exactly the chunks received, at least the announced length, one reply per request |
| Transfers.GetChunksAllSucceeded | src/brickv/plugin_system/plugins/red/api.py:418-419 | a successful loop got a success reply to every request |
| Transfers.StringUpdateRun | src/brickv/plugin_system/plugins/red/api.py:408 | a string update starts with the length request |
| Transfers.StringUpdateReadsAll | src/brickv/plugin_system/plugins/red/api.py:404-423 | a successful string update read at least the announced length, and its data is the chunks received |
| Transfers.StringUpdateAsksInOrder | src/brickv/plugin_system/plugins/red/api.py:415-416 | after the length, each chunk is asked at the number of bytes received before it |
| Transfers.SetChunkCalls | src/brickv/plugin_system/plugins/red/api.py:445 | one set-chunk call per piece, with its offset and bytes |
| Transfers.SetChunksLogged | src/brickv/plugin_system/plugins/red/api.py:441-450 | the loop with its call log carried along appends the calls of the specification to that log |
| Transfers.SetChunksFollowPlan | src/brickv/plugin_system/plugins/red/api.py:441-450 | the set-chunk calls are a prefix of the piece plan, so every offset is the bytes sent before it |
| Transfers.SetChunksComplete | src/brickv/plugin_system/plugins/red/api.py:441-452 | a successful loop made every planned call and reached the end of the data |
| Transfers.SetChunksSucceedIff | src/brickv/plugin_system/plugins/red/api.py:447-448 | the loop succeeds exactly when every planned piece gets a success reply (it raises at the first failure) |
| Transfers.AllocatePlan | src/brickv/plugin_system/plugins/red/api.py:428-450 | the inline first ≤58 bytes and the set-chunk pieces concatenate to the data, each piece at the offset of the bytes before it |
| Transfers.AllocateOf130 | src/brickv/plugin_system/plugins/red/api.py:428-450 | 130 bytes: 58 inline, then set-chunk calls of 58 and 14 bytes at offsets 58 and 116 |
| Transfers.Take | src/brickv/plugin_system/plugins/red/api.py:773 | the first min(n, len) bytes of a buffer |
| Transfers.ReadLogged | src/brickv/plugin_system/plugins/red/api.py:761-774 | the loop with its call log carried along appends the calls of the specification to that log |
| Transfers.ReadAsks | src/brickv/plugin_system/plugins/red/api.py:761-764 | every read asks for min(remaining, 62) bytes, at least 1 and never more than still wanted |
| Transfers.ReadBounded | src/brickv/plugin_system/plugins/red/api.py:755-776 | when no reply reports more than asked, a successful read returns at most length bytes after what it held |
| Transfers.WriteLogged | src/brickv/plugin_system/plugins/red/api.py:732-742 | the loop with its call log carried along appends the calls of the specification to that log |
| Transfers.WriteCalls | src/brickv/plugin_system/plugins/red/api.py:733-736 | one write call per 61-byte piece |
| Transfers.FullWriteSendsPieces | src/brickv/plugin_system/plugins/red/api.py:726-742 | when each chunk is written in full, write sends the data as consecutive zero-padded 61-byte pieces and succeeds |
| Transfers.ZeroWrittenRepeats | src/brickv/plugin_system/plugins/red/api.py:742 | a reply reporting zero bytes written makes write send the same chunk again |
| Transfers.BurstWrites | src/brickv/plugin_system/plugins/red/api.py:648-664 | a burst never moves the written position backwards |
| Transfers.BurstLogged | src/brickv/plugin_system/plugins/red/api.py:651-664 | the loop with its call log carried along appends the calls of the specification to that log |
| Transfers.BurstCountStep | src/brickv/plugin_system/plugins/red/api.py:651-652 | one more unchecked write happens while under 1999 and more than 61 bytes remain |
| Transfers.BurstLength | src/brickv/plugin_system/plugins/red/api.py:648-664 | a burst makes min(1999 - count, (remaining - 1) div 61) unchecked writes (none when at most 61 bytes remain) and advances 61 bytes for each |
| Transfers.BurstWritesAreFull | src/brickv/plugin_system/plugins/red/api.py:651-658 | the i-th unchecked write sends the 61 bytes at written + 61i, and only while more than 61 bytes remain |
| Transfers.BurstLeavesLastChunk | src/brickv/plugin_system/plugins/red/api.py:651-668 | a burst stops early only at 1999 writes; otherwise at most 61 bytes are left for the acknowledged write |
| Transfers.GetChunks | src/brickv/plugin_system/plugins/red/api.py:413-421 | the loop against the brick makes exactly the specification's calls and result |
| Transfers.SetChunks | src/brickv/plugin_system/plugins/red/api.py:439-450 | the loop against the brick makes exactly the specification's calls and result |
| Transfers.WriteChunks | src/brickv/plugin_system/plugins/red/api.py:730-742 | the loop against the brick makes exactly the specification's calls and result |
| Transfers.ReadChunks | src/brickv/plugin_system/plugins/red/api.py:759-776 | the loop against the brick makes exactly the specification's calls and result |
| Transfers.SendBurst | src/brickv/plugin_system/plugins/red/api.py:648-664 | connected: all the burst's unchecked writes are sent; otherwise the first send raises and the burst stops |
| Objects.WrapperFor | src/brickv/plugin_system/plugins/red/api.py:1801-1808 | the table has a class exactly for the six object types 0..5 |
| Objects.WrapperTableBijective | src/brickv/plugin_system/plugins/red/api.py:1801-1808 | the table is a bijection between the six types and the six wrapper classes |
| Objects.KindOf | src/brickv/plugin_system/plugins/red/api.py:1801-1808 | a file tag names the file-or-pipe attacher, never a plain file |
| Objects.EventsOf | src/brickv/plugin_system/plugins/red/api.py:607-611 | only files, processes and programs listen, each to at most two distinct events |
| Objects.Fire | src/brickv/plugin_system/plugins/red/api.py:283-293 | a disarmed releaser, or one whose session expired, makes no call; otherwise one release of its id |
| Objects.IdList | src/brickv/plugin_system/plugins/red/api.py:361-365 | the ids an attached handle releases: none when unattached |
| Objects.NoReleasesExtend | src/brickv/plugin_system/plugins/red/api.py:273 | two release-free stretches of the log make one |
| Objects.NoReleaseOccurs | src/brickv/plugin_system/plugins/red/api.py:273 | a stretch without release calls releases no id |
| Objects.Handle.constructor | src/brickv/plugin_system/plugins/red/api.py:306-314 | a new handle is unattached, without a releaser, with its details cleared |
| Objects.Handle.Initialize | src/brickv/plugin_system/plugins/red/api.py:589-605 | every reported field is forgotten; a file also drops its cookies and jobs |
| Objects.Handle.AttachCallbacks | src/brickv/plugin_system/plugins/red/api.py:607-611 | one fresh cookie per event of the kind, each registering this handle |
| Objects.Handle.DetachCallbacks | src/brickv/plugin_system/plugins/red/api.py:613-620 | none of the handle's cookies is left in the table |
| Objects.Handle.Detach | src/brickv/plugin_system/plugins/red/api.py:344-357 | unattached raises and changes nothing; otherwise returns the old id, removes the handle's callbacks so that none of its old cookies is left under its events, disarms and drops the releaser, re-initialises |
| Objects.Handle.Release | src/brickv/plugin_system/plugins/red/api.py:360-373 | unattached is a no-op; otherwise detach, so the handle's old cookies leave the table, then one release call only if the session still has an id |
| Objects.ReleaseTwice | src/brickv/plugin_system/plugins/red/api.py:360-373 | releasing twice makes at most one release call |
| Objects.Handle.Finalize | src/brickv/plugin_system/plugins/red/api.py:276-293 | an armed releaser releases its id when the handle is reclaimed; its listeners become dead |
| Objects.Handle.Bind | src/brickv/plugin_system/plugins/red/api.py:331-337 | release, then arm a releaser for the id and register callbacks: one cookie per event of the kind, each with a live listener of this handle in the table; the attacher releases and then fails on its unbound call |
| Objects.Handle.Attach | src/brickv/plugin_system/plugins/red/api.py:331-342 | the old object is released first; the handle holds the id; without update nothing is read and the callbacks of every event of the kind are registered; a successful update releases nothing more |
| Objects.Handle.Refresh | src/brickv/plugin_system/plugins/red/api.py:328-329 | update by kind keeps the id; unattached fails with no call; a success releases nothing |
| Objects.Handle.StringUpdate | src/brickv/plugin_system/plugins/red/api.py:404-423 | unattached raises; otherwise the calls and result are the string-update run, storing its data on success and keeping the old data on failure |
| Objects.StringUpdateReleasesNothing | src/brickv/plugin_system/plugins/red/api.py:404-423 | a string update makes no release call |
| Objects.Handle.StringAllocate | src/brickv/plugin_system/plugins/red/api.py:425-454 | release, allocate with the length and the first ≤58 bytes; a failure raises unattached; then attach and the set-chunk run, storing the data on success |
| Objects.Handle.FillAllocated | src/brickv/plugin_system/plugins/red/api.py:437-452 | attached to the new id, the calls are those of the set-chunk run, and success stores the data |
| Objects.Handle.ListUpdate | src/brickv/plugin_system/plugins/red/api.py:473-497 | unattached raises; a failed length raises with the list's message; on success there are as many fresh attached items as the reported length; on failure the old items are kept |
| Objects.DecodeItem | src/brickv/plugin_system/plugins/red/api.py:490-495 | an unknown type raises with the list id, type and index after releasing the item; a known one attaches its wrapper class or releases the id |
| Objects.DecodeItemAsWritten | src/brickv/plugin_system/plugins/red/api.py:490-493 | as written, an unknown type raises without releasing the item's id |
| Objects.FetchItems | src/brickv/plugin_system/plugins/red/api.py:484-495 | one get-list-item call per index, in index order, positions recorded in the log; the loop passes exactly when all items are fetched, each a fresh attached handle; on a failure the call for the failing index was made and the items fetched before it are reclaimed, so their ids are released last |
| Objects.FetchItem | src/brickv/plugin_system/plugins/red/api.py:485-495 | one index: the first call is the get-list-item call for it; a failed reply raises with the index and list id; success is a fresh attached handle for the reply's id, with no release call; without a session it fails with no call |
| Objects.CollectItems | src/brickv/plugin_system/plugins/red/api.py:484-495 | the item loop up to the length or the first failure: one get-list-item call per index in order; the items are fresh attached handles; a loop without failure fetched all of them and releases nothing |
| Objects.ItemCallsExtend | src/brickv/plugin_system/plugins/red/api.py:484-485 | a get-list-item call for the next index, made after the recorded ones, extends the recorded positions |
| Objects.ItemCallsGrow | src/brickv/plugin_system/plugins/red/api.py:484-485 | calls appended later keep the recorded get-list-item positions |
| Objects.Drop | src/brickv/plugin_system/plugins/red/api.py:283-293 | dropping fetched handles fires each one's armed releaser: one release per id, in order, at the end of the log |
| Objects.Handle.FileUpdate | src/brickv/plugin_system/plugins/red/api.py:700-715 | unattached raises; failed info raises; a pipe has no name; otherwise the name string is attached, or released on failure |
| Objects.Handle.HoldName | src/brickv/plugin_system/plugins/red/api.py:715 | the name holds the string id, or the id was released last and nothing changed |
| Objects.Handle.FileWrite | src/brickv/plugin_system/plugins/red/api.py:726-742 | unattached raises; otherwise the calls and result are the write run |
| Objects.Handle.FileRead | src/brickv/plugin_system/plugins/red/api.py:755-776 | unattached raises; otherwise the calls and result are the read run |
| Objects.Handle.WriteAsync | src/brickv/plugin_system/plugins/red/api.py:744-753 | unattached or a running write raises and changes nothing; otherwise a job for all bytes starts with its first burst |
| Objects.Handle.NextBurst | src/brickv/plugin_system/plugins/red/api.py:647-674 | the burst's unchecked writes, then one acknowledged write of the rest; a raising send reports the error and clears the job |
| Objects.Handle.OnAsyncFileWrite | src/brickv/plugin_system/plugins/red/api.py:627-645 | another file's event is ignored; an error reports and clears; success adds the length, reports status, and finishes when all is written, otherwise sends the next burst |
| Objects.Handle.ReadAsync | src/brickv/plugin_system/plugins/red/api.py:779-787 | unattached or a running read raises and changes nothing; otherwise a new job and one asynchronous read request |
| Objects.Handle.OnAsyncFileRead | src/brickv/plugin_system/plugins/red/api.py:680-698 | another file's event is ignored; an error or a zero-length delivery reports and clears; otherwise bytes are appended and the job finishes when max length is reached |
| Objects.Handle.DirectoryUpdate | src/brickv/plugin_system/plugins/red/api.py:944-976 | unattached raises; a failed name raises; success holds the name string and fresh attached entries; failure keeps the entries |
| Objects.Handle.ListEntries | src/brickv/plugin_system/plugins/red/api.py:957-976 | a rewind first, whose failure raises with the directory's message; success stores the entries |
| Objects.FetchEntries | src/brickv/plugin_system/plugins/red/api.py:963-974 | the collected entries, each a fresh attached string; on a failure the entries fetched before it are reclaimed, so their ids are released last; no session fails with no call |
| Objects.CollectEntries | src/brickv/plugin_system/plugins/red/api.py:963-974 | repeats FetchEntry until it reports no entry or fails; the entries are fresh attached strings; a loop without failure releases nothing |
| Objects.FetchEntry | src/brickv/plugin_system/plugins/red/api.py:964-974 | one entry: the first call is the get-next-entry call; no entry exactly when the reply is E_NO_MORE_DATA; any other failed reply raises with the directory's message; an entry is a fresh attached string for the reply's id, with the reply's type, and consumes a reply |
| Objects.DropEntries | src/brickv/plugin_system/plugins/red/api.py:283-293 | dropping fetched entries releases their name ids, in order, at the end of the log |
| Objects.Handle.ProcessUpdate | src/brickv/plugin_system/plugins/red/api.py:1093-1097 | only the command, identity, stdio and state fields change; unattached raises and changes nothing; the command call comes first, and its failure raises with no further call and nothing changed; success ends with the state call, sets every field and releases nothing |
| Objects.Handle.UpdateRuntime | src/brickv/plugin_system/plugins/red/api.py:1095-1097 | unattached raises; the identity call comes first and its reply's pid, uid and gid are stored, or its failure raises with nothing changed; then the stdio call, whose failure raises and keeps the state; success holds the three stdio file ids of the reply, ends with the state call and has a state |
| Objects.Handle.UpdateStdioAndState | src/brickv/plugin_system/plugins/red/api.py:1096-1097 | the stdio call first, whose failure raises and keeps the state; success holds the three file ids of the stdio reply, ends with the state call and has a state |
| Objects.Handle.UpdateCommand | src/brickv/plugin_system/plugins/red/api.py:1099-1112 | unattached or a failed query raises and changes nothing; success holds the four ids; on failure at sibling k the ids from k on were released last |
| Objects.Handle.HoldCommand | src/brickv/plugin_system/plugins/red/api.py:1109-1112 | each sibling is attached with the later ones as extras, so a failure at k releases ids k.. and keeps the earlier ones |
| Objects.FetchSiblings | src/brickv/plugin_system/plugins/red/api.py:1109-1112 | shrinking suffixes as extras: success attaches all; a failure leaves exactly the unfetched suffix released last |
| Objects.Handle.UpdateIdentity | src/brickv/plugin_system/plugins/red/api.py:1114-1125 | unattached raises; otherwise one identity call; success stores pid, uid and gid; failure raises and keeps them |
| Objects.Handle.UpdateStdio | src/brickv/plugin_system/plugins/red/api.py:1127-1138 | unattached or a failed query raises; success holds the three file ids; on failure at k the ids from k on were released last |
| Objects.Handle.HoldStdio | src/brickv/plugin_system/plugins/red/api.py:1136-1138 | each stdio file is attached with the later ones as extras |
| Objects.Handle.UpdateState | src/brickv/plugin_system/plugins/red/api.py:1140-1151 | unattached raises; otherwise one state call; success stores state, timestamp and exit code |
| Objects.Handle.ProgramUpdate | src/brickv/plugin_system/plugins/red/api.py:1390-1393 | only the identifier, root directory and command fields change; unattached raises and changes nothing; the identifier call comes first, and its failure raises with no further call and nothing changed; success sets those fields and releases nothing |
| Objects.Handle.UpdateRootAndCommand | src/brickv/plugin_system/plugins/red/api.py:1391-1392 | only the root directory and command fields change; the root directory call comes first; success sets those fields and releases nothing |
| Objects.Handle.UpdateIdentifier | src/brickv/plugin_system/plugins/red/api.py:1400-1409 | unattached or a failed query raises and changes nothing, with at most the one query made; success holds the identifier string; failure releases it and changes nothing |
| Objects.Handle.UpdateRootDirectory | src/brickv/plugin_system/plugins/red/api.py:1411-1420 | unattached or a failed query raises; success holds the root directory string; failure releases it and changes nothing |
| Objects.Handle.IdentifierText | src/brickv/plugin_system/plugins/red/api.py:1586 | the text of a missing identifier is `None` |
| Objects.Handle.Purge | src/brickv/plugin_system/plugins/red/api.py:1580-1592 | unattached raises; otherwise one purge call whose cookie is the character sum of the identifier text; failure raises |
| Objects.CodeSumAppend | src/brickv/plugin_system/plugins/red/api.py:1584-1587 | the purge cookie of a concatenation is the sum of the cookies |
| Objects.CodeSumSwap | src/brickv/plugin_system/plugins/red/api.py:1584-1587 | the cookie does not depend on character order |
| Objects.CodeSumBound | src/brickv/plugin_system/plugins/red/api.py:1584-1587 | the cookie is at most 255 per character |
| Objects.ReleaseEach | src/brickv/plugin_system/plugins/red/api.py:258-269 | one release per id, in order |
| Objects.NewAttached | src/brickv/plugin_system/plugins/red/api.py:256 | a fresh handle attached to the id (the attacher fails without a call) |
| Objects.AttachOrRelease | src/brickv/plugin_system/plugins/red/api.py:254-273 | success: a fresh updated handle and no release call; failure: the id and then the extras were released last, each once |
| Objects.AttachOrReleaseAsWritten | src/brickv/plugin_system/plugins/red/api.py:254-273 | as written, the failed handle's releaser fires too, so the id is released again after the extras |
| Objects.ReleaseThenFinalize | src/brickv/plugin_system/plugins/red/api.py:257-271 | as written, after the failure the id and the extras are released, then the dropped handle's releaser releases the id again (the attacher, never attached, adds nothing) |
| Objects.ReleasedJoin | src/brickv/plugin_system/plugins/red/api.py:259-269 | two rounds of releases make the release of the joined ids |
| Objects.CountAppend | src/brickv/plugin_system/plugins/red/api.py:264-269 | counts in a concatenated id list add up |
| Objects.ReleasesLastAppend | src/brickv/plugin_system/plugins/red/api.py:255-271 | a release-free attach followed by releases puts the releases last |
| Objects.ReleasesLastCount | src/brickv/plugin_system/plugins/red/api.py:258-269 | when the releases come last, each id is released as often as listed |
| Objects.FailedAttachReleasesOnce | src/brickv/plugin_system/plugins/red/api.py:254-273 | a failed attach releases its id exactly once, besides the extras |
| Objects.FailedAttachReleasesTwice | src/brickv/plugin_system/plugins/red/api.py:254-273 | as written, a failed attach releases its id twice |

## Left out

- Qt: the keep-alive `QTimer` is a flag, and the `pyqtSignal`s of the asynchronous transfers are records appended to `signals`. Python callbacks the caller passes in are not called.
- Threads and `threading.Lock`: everything is sequential. A listener that removes others while it runs is modelled by a map from cookie to the cookies it removes.
- Weak references and garbage collection: a listener has an `alive` flag, and reclamation is the explicit `Finalize`/`Collect`. When garbage collection happens is not modelled.
- `BrickRED`, the binding, is not part of this model. It becomes a scripted reply stream. A reply's error code and results come from the script, and `Lost` stands for an exception of the binding.
- UTF-8 encoding and decoding, and `unicode()`: strings are byte sequences. So `Objects.Handle.Purge` sums the UTF-8 bytes of the identifier, where `str()` of an identifier with a non-ASCII character raises `UnicodeEncodeError` at api.py:1586 before any call.
- `Errors.Text`: the message of the unbound `attach()` call is the Python 2.7 wording; other interpreter versions word it differently.
- `REDSession.__del__` (api.py:203-204) is not modelled. Teardown is modelled by calling `Expire` directly.
- `REDList.allocate` (api.py:499-522), `REDFile.open`, `REDPipe.create`, `REDDirectory.open`, `REDProcess.spawn/kill`, `REDProgram.define` and the setters, the module-level lookups and `get_processes`/`get_programs`: these are constructors and setters outside the update and transfer core.
- `Objects.Handle.ProgramUpdate`: models `update_identifier`, `update_root_directory` and `update_command` only, so its `Pass` is not the success of `REDProgram.update`, which goes on with five more steps (api.py:1394-1398). Those steps are further queries with their own attach-or-release calls, and they are not modelled: `update_stdio_redirection` (api.py:1437-1482) attaches up to three file-name strings, `update_schedule` (api.py:1484-1503) the repeat-fields string, `update_scheduler_state` (api.py:1505-1521) a message string, `update_last_spawned_process` (api.py:1523-1539) a process, and `update_custom_options` (api.py:1541-1565) a list and one string per option.
- `Objects.Handle.FileUpdate`: stores only the type and the name string. The flags, permissions, owner, length and times of the reply are copied unchanged and are not modelled.
- `Objects.Handle.ProcessUpdate`: on success it states that every field is set, not which ids they hold; `UpdateCommand` and `UpdateStdio` state the ids.
- `Objects.FetchItems`: states that each item is a fresh attached handle, not which reply id it holds. `DecodeItem` states the id of a single item.
- `Objects.FetchEntries`: states that each entry is a fresh attached string, not its id or entry type.
- `Objects.CollectEntries`, `Objects.FetchEntries`: the loop ends when `FetchEntry` reports no entry, which `FetchEntry` ties to an `E_NO_MORE_DATA` reply; the loop's own contract does not restate which reply ended it, because the reply stream is not related across the attach calls.
- `Objects.Drop`: the handles fetched before a failure are reclaimed at the failure, in index order. In CPython the traceback can keep the frame, and with it the list, alive for longer, and the order in which the list's elements are freed is not fixed by the language.
- `Objects.Handle.UpdateRuntime`, `Objects.Handle.UpdateStdioAndState`: the state stored is not tied to the particular reply that answered the state call; the contract states that the state call comes last and that a state is set. `UpdateState` states the stored values.
- `Transport.Brick.Dispatch`: when a listener removes a dead listener's cookie after the pass collected it, `del` at api.py:160 raises `KeyError` in the source and the remaining dead cookies stay in the table. The model drops the missing cookie silently and removes the others.
- `Objects.Handle.Bind`: for `REDFileOrPipeAttacher`, the call at api.py:877 lacks `self` and always raises a `TypeError`. The model releases the current object and then fails, so the rest of that method (api.py:879-899) is unreachable and not modelled.
- `Objects.Handle.ListUpdate`: models the corrected program of "## Findings": it decodes items through `DecodeItem`, which releases the id of an item of unknown type, and attaches through `AttachOrRelease`, so a failed attach releases its id once rather than a second time when the failed handle is reclaimed.
- `Objects.FetchItems`: models the corrected program of "## Findings": it decodes items through `DecodeItem`, which releases the id of an item of unknown type, and attaches through `AttachOrRelease`, so a failed attach releases its id once rather than a second time when the failed handle is reclaimed.
- `Objects.CollectItems`: models the corrected program of "## Findings": it decodes items through `DecodeItem`, which releases the id of an item of unknown type, and attaches through `AttachOrRelease`, so a failed attach releases its id once rather than a second time when the failed handle is reclaimed.
- `Objects.FetchItem`: models the corrected program of "## Findings": it decodes items through `DecodeItem`, which releases the id of an item of unknown type, and attaches through `AttachOrRelease`, so a failed attach releases its id once rather than a second time when the failed handle is reclaimed.
- `Objects.Handle.DirectoryUpdate`: models the corrected program of "## Findings": it attaches through `AttachOrRelease`, so a failed attach releases its id once rather than a second time when the failed handle is reclaimed.
- `Objects.Handle.ListEntries`: models the corrected program of "## Findings": it attaches through `AttachOrRelease`, so a failed attach releases its id once rather than a second time when the failed handle is reclaimed.
- `Objects.FetchEntries`: models the corrected program of "## Findings": it attaches through `AttachOrRelease`, so a failed attach releases its id once rather than a second time when the failed handle is reclaimed.
- `Objects.CollectEntries`: models the corrected program of "## Findings": it attaches through `AttachOrRelease`, so a failed attach releases its id once rather than a second time when the failed handle is reclaimed.
- `Objects.FetchEntry`: models the corrected program of "## Findings": it attaches through `AttachOrRelease`, so a failed attach releases its id once rather than a second time when the failed handle is reclaimed.
- `Objects.Handle.FileUpdate`: models the corrected program of "## Findings": it attaches through `AttachOrRelease`, so a failed attach releases its id once rather than a second time when the failed handle is reclaimed.
- `Objects.Handle.HoldName`: models the corrected program of "## Findings": it attaches through `AttachOrRelease`, so a failed attach releases its id once rather than a second time when the failed handle is reclaimed.
- `Objects.Handle.ProcessUpdate`: models the corrected program of "## Findings": it attaches through `AttachOrRelease`, so a failed attach releases its id once rather than a second time when the failed handle is reclaimed.
- `Objects.Handle.UpdateRuntime`: models the corrected program of "## Findings": it attaches through `AttachOrRelease`, so a failed attach releases its id once rather than a second time when the failed handle is reclaimed.
- `Objects.Handle.UpdateStdioAndState`: models the corrected program of "## Findings": it attaches through `AttachOrRelease`, so a failed attach releases its id once rather than a second time when the failed handle is reclaimed.
- `Objects.Handle.UpdateCommand`: models the corrected program of "## Findings": it attaches through `AttachOrRelease`, so a failed attach releases its id once rather than a second time when the failed handle is reclaimed.
- `Objects.Handle.HoldCommand`: models the corrected program of "## Findings": it attaches through `AttachOrRelease`, so a failed attach releases its id once rather than a second time when the failed handle is reclaimed.
- `Objects.FetchSiblings`: models the corrected program of "## Findings": it attaches through `AttachOrRelease`, so a failed attach releases its id once rather than a second time when the failed handle is reclaimed.
- `Objects.Handle.UpdateStdio`: models the corrected program of "## Findings": it attaches through `AttachOrRelease`, so a failed attach releases its id once rather than a second time when the failed handle is reclaimed.
- `Objects.Handle.HoldStdio`: models the corrected program of "## Findings": it attaches through `AttachOrRelease`, so a failed attach releases its id once rather than a second time when the failed handle is reclaimed.
- `Objects.Handle.UpdateRootAndCommand`: models the corrected program of "## Findings": it attaches through `AttachOrRelease`, so a failed attach releases its id once rather than a second time when the failed handle is reclaimed.
- `Objects.Handle.ProgramUpdate`: models the corrected program of "## Findings": it attaches through `AttachOrRelease`, so a failed attach releases its id once rather than a second time when the failed handle is reclaimed.
- `Objects.Handle.UpdateIdentifier`: models the corrected program of "## Findings": it attaches through `AttachOrRelease`, so a failed attach releases its id once rather than a second time when the failed handle is reclaimed.
- `Objects.Handle.UpdateRootDirectory`: models the corrected program of "## Findings": it attaches through `AttachOrRelease`, so a failed attach releases its id once rather than a second time when the failed handle is reclaimed.
- The state-change handlers of processes and programs (api.py:1071-1090, 1328-1388): only their registrations are modelled.
- `OnAsyncFileWrite`/`OnAsyncFileRead` without a running job: the source fails on `None` inside the dispatcher, which prints and continues. The model changes nothing.
- `cast_custom_option_value` (api.py:1736-1740) applies a caller-supplied cast and is not modelled.
- The server is not assumed to report a positive written length in `write`. Loops stop when the reply script ends, and `Transfers.ZeroWrittenRepeats` shows the consequence.

## Findings

| source | as written | input that shows it | evidently intended | confidence | as-written member | corrected member |
|---|---|---|---|---|---|---|
| src/brickv/plugin_system/plugins/red/api.py:254-273 | when `attach` fails, the new handle is already attached with an armed releaser; the except branch releases `object_id` and the extras, and when the handle is reclaimed its releaser releases `object_id` once more | a string id whose `get_string_length` reply is an error, with a live session: the log ends with release(id), then release(id) again | release the id exactly once on failure, e.g. by detaching or disarming the failed handle before releasing | not executed | Objects.AttachOrReleaseAsWritten, Objects.FailedAttachReleasesTwice | Objects.AttachOrRelease, Objects.FailedAttachReleasesOnce |
| src/brickv/plugin_system/plugins/red/api.py:490-495 | a list item of unknown type raises `TypeError` before `_attach_or_release`, so the item's object id fetched at line 485 is never released | a list whose item 0 has type 9 | release the item id before raising, as every other error path after a fetch does | not executed | Objects.DecodeItemAsWritten | Objects.DecodeItem |
