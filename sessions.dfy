/** REDSession: the server-side session that owns every object the client holds,
    kept alive by a periodic keep-alive call. */
module Sessions {
  import opened Errors
  import opened Transport

  const KEEP_ALIVE_INTERVAL: nat := 10   // seconds
  const LIFETIME: nat := 35              // int(KEEP_ALIVE_INTERVAL * 3.5) seconds

  /** The expire call a session with this id issues, if any. */
  function ExpireCalls(sessionId: Option<nat>): (calls: seq<Call>)
    ensures sessionId.None? <==> calls == []
    ensures sessionId.Some? ==> calls == [ExpireSessionUnchecked(sessionId.value)]
  {
    if sessionId.None? then [] else [ExpireSessionUnchecked(sessionId.value)]
  }

  /** The release_object_unchecked calls that reach the binding for ids, in order:
      with no session id the binding cannot encode the call and nothing is sent. */
  function Released(ids: seq<nat>, sessionId: Option<nat>): (calls: seq<Call>)
    ensures sessionId.None? ==> calls == []
    ensures sessionId.Some? ==> |calls| == |ids|
    ensures sessionId.Some? ==> forall i :: 0 <= i < |ids| ==> calls[i] == ReleaseObjectUnchecked(ids[i], sessionId.value)
  {
    if sessionId.None? || ids == [] then []
    else [ReleaseObjectUnchecked(ids[0], sessionId.value)] + Released(ids[1..], sessionId)
  }

  lemma {:induction false} ReleasedAppend(a: seq<nat>, b: seq<nat>, sessionId: Option<nat>)
    ensures Released(a + b, sessionId) == Released(a, sessionId) + Released(b, sessionId)
  {
    if sessionId.Some? && a != [] {
      assert (a + b)[1..] == a[1..] + b;
      ReleasedAppend(a[1..], b, sessionId);
    } else if a == [] {
      assert a + b == b;
    }
  }

  /** Every release call in Released(ids) names one of ids, and each id is named as
      often as it occurs in ids. */
  lemma {:induction false} ReleasedCounts(ids: seq<nat>, sid: nat, id: nat)
    ensures Occurrences(Released(ids, Some(sid)), ReleaseObjectUnchecked(id, sid)) == Count(ids, id)
  {
    if ids != [] {
      ReleasedCounts(ids[1..], sid, id);
      var rest := Released(ids[1..], Some(sid));
      assert Released(ids, Some(sid)) == [ReleaseObjectUnchecked(ids[0], sid)] + rest;
      assert ([ReleaseObjectUnchecked(ids[0], sid)] + rest)[1..] == rest;
    }
  }

  function Count(s: seq<nat>, x: nat): nat
  {
    if s == [] then 0 else (if s[0] == x then 1 else 0) + Count(s[1..], x)
  }

  function Occurrences(s: seq<Call>, c: Call): nat
  {
    if s == [] then 0 else (if s[0] == c then 1 else 0) + Occurrences(s[1..], c)
  }

  lemma {:induction false} OccurrencesAppend(a: seq<Call>, b: seq<Call>, c: Call)
    ensures Occurrences(a + b, c) == Occurrences(a, c) + Occurrences(b, c)
  {
    if a != [] {
      assert (a + b)[1..] == a[1..] + b;
      OccurrencesAppend(a[1..], b, c);
    } else {
      assert a + b == b;
    }
  }

  class Session {
    const brick: Brick
    var sessionId: Option<nat>
    var keepAliveRunning: bool   // the keep-alive QTimer

    /** The keep-alive timer only runs for a session the server knows. */
    ghost predicate Valid()
      reads this`keepAliveRunning, this`sessionId, brick`nextCookie, brick`subscribed, brick`table
    {
      brick.Valid() && (keepAliveRunning ==> sessionId.Some?)
    }

    constructor (brick: Brick)
      requires brick.Valid()
      ensures Valid() && this.brick == brick
      ensures sessionId.None? && !keepAliveRunning
    {
      this.brick := brick;
      sessionId := None;
      keepAliveRunning := false;
    }

    /** expire: a no-op without a session; otherwise stop the keep-alive, drop every
        callback, forget the id, then make one best-effort expire call with it. */
    method Expire()
      requires Valid()
      modifies this, brick`calls, brick`table, brick`subscribed
      ensures Valid() && sessionId.None? && !keepAliveRunning
      ensures brick.calls == old(brick.calls) + ExpireCalls(old(sessionId))
      ensures old(sessionId).None? ==> brick.table == old(brick.table) && brick.subscribed == old(brick.subscribed)
      ensures old(sessionId).Some? ==> brick.table == map[] && brick.subscribed == {}
    {
      if sessionId.None? {
        return;
      }
      keepAliveRunning := false;
      brick.RemoveAllCallbacks();
      var id := sessionId.value;
      sessionId := None;
      var _ := brick.Send(ExpireSessionUnchecked(id));
    }

    /** create: expire any current session, then ask for a new one; on success store
        its id and start the keep-alive, otherwise raise with no session. */
    method Create() returns (o: Outcome)
      requires Valid()
      modifies this, brick`calls, brick`script, brick`table, brick`subscribed
      ensures Valid()
      ensures brick.calls == old(brick.calls) + ExpireCalls(old(sessionId)) + [CreateSession(LIFETIME)]
      ensures brick.Stream() == Tail(old(brick.Stream()))
      ensures var r := Head(old(brick.Stream()));
              (r.Succeeded() ==> o == Pass && sessionId == Some(r.Value(0)) && keepAliveRunning) &&
              (!r.Succeeded() ==> o == Fail(ReplyFailure(r, CreateFailed)) &&
                                  sessionId.None? && !keepAliveRunning)
      ensures old(sessionId).Some? ==> brick.table == map[]
    {
      Expire();
      var r := brick.Request(CreateSession(LIFETIME));
      if !r.Succeeded() {
        return Fail(ReplyFailure(r, CreateFailed));
      }
      sessionId := Some(r.Value(0));
      keepAliveRunning := true;
      o := Pass;
    }

    /** The keep-alive timer fired: renew the session for another LIFETIME; a failure
        is only logged. */
    method KeepAlive()
      requires Valid() && keepAliveRunning
      modifies brick`calls, brick`script
      ensures brick.calls == old(brick.calls) + [KeepSessionAlive(sessionId.value, LIFETIME)]
      ensures brick.Stream() == Tail(old(brick.Stream()))
    {
      var _ := brick.Request(KeepSessionAlive(sessionId.value, LIFETIME));
    }

    /** A checked call that carries the session id. Without a session the binding
        cannot encode the call and raises before sending anything. */
    method BoundRequest(call: nat -> Call) returns (r: Reply)
      modifies brick`calls, brick`script
      ensures sessionId.None? ==> r == Lost && brick.calls == old(brick.calls) && brick.script == old(brick.script)
      ensures sessionId.Some? ==> brick.calls == old(brick.calls) + [call(sessionId.value)] &&
                                  r == Head(old(brick.Stream())) && brick.Stream() == Tail(old(brick.Stream()))
      ensures r.Answer? ==> |brick.Stream()| == |old(brick.Stream())| - 1
      ensures |brick.Stream()| <= |old(brick.Stream())|
    {
      if sessionId.None? {
        return Lost;
      }
      r := brick.Request(call(sessionId.value));
    }

    /** release_object_unchecked with the session's id; its failures are ignored. */
    method ReleaseUnchecked(id: nat)
      modifies brick`calls
      ensures brick.calls == old(brick.calls) + Released([id], sessionId)
    {
      if sessionId.Some? {
        var _ := brick.Send(ReleaseObjectUnchecked(id, sessionId.value));
      }
    }
  }

  /** Expiring twice makes no second expire call: teardown is idempotent. */
  method ExpireTwice(s: Session)
    requires s.Valid()
    modifies s, s.brick`calls, s.brick`table, s.brick`subscribed
    ensures s.sessionId.None? && !s.keepAliveRunning
    ensures s.brick.calls == old(s.brick.calls) + ExpireCalls(old(s.sessionId))
  {
    s.Expire();
    s.Expire();
  }
}
