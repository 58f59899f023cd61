/** The RED Brick as the client sees it (REDBrick over BrickRED): a transport whose
    calls are recorded and whose replies come from a script, and the callback table
    that multiplexes server push-events onto weakly held listeners. */
module Transport {
  import opened Errors

  /** The push-events the core subscribes to. */
  datatype Event =
    | AsyncFileRead
    | AsyncFileWrite
    | ProcessStateChanged
    | ProgramSchedulerStateChanged
    | ProgramProcessSpawned

  /** Every call the client makes into the binding, with its arguments. */
  datatype Call =
    | CreateSession(lifetime: nat)
    | KeepSessionAlive(sessionId: nat, lifetime: nat)
    | ExpireSessionUnchecked(sessionId: nat)
    | ReleaseObjectUnchecked(objectId: nat, sessionId: nat)
    | AllocateString(lengthToReserve: nat, buffer: seq<byte>, sessionId: nat)
    | SetStringChunk(stringId: nat, offset: nat, buffer: seq<byte>)
    | GetStringLength(stringId: nat)
    | GetStringChunk(stringId: nat, offset: nat)
    | GetListLength(listId: nat)
    | GetListItem(listId: nat, index: nat, sessionId: nat)
    | GetFileInfo(fileId: nat, sessionId: nat)
    | WriteFile(fileId: nat, buffer: seq<byte>, lengthToWrite: nat)
    | WriteFileUnchecked(fileId: nat, buffer: seq<byte>, lengthToWrite: nat)
    | WriteFileAsync(fileId: nat, buffer: seq<byte>, lengthToWrite: nat)
    | ReadFile(fileId: nat, lengthToRead: nat)
    | ReadFileAsync(fileId: nat, lengthToRead: nat)
    | GetDirectoryName(directoryId: nat, sessionId: nat)
    | RewindDirectory(directoryId: nat)
    | GetNextDirectoryEntry(directoryId: nat, sessionId: nat)
    | GetProcessCommand(processId: nat, sessionId: nat)
    | GetProcessIdentity(processId: nat)
    | GetProcessStdio(processId: nat, sessionId: nat)
    | GetProcessState(processId: nat)
    | GetProgramIdentifier(programId: nat, sessionId: nat)
    | GetProgramRootDirectory(programId: nat, sessionId: nat)
    | GetProgramCommand(programId: nat, sessionId: nat)
    | PurgeProgram(programId: nat, cookie: nat)

  /** The answer to a checked call: an error code with the call's integer results and
      byte payload, or Lost when the binding raised instead (not connected, timeout). */
  datatype Reply = Answer(code: nat, values: seq<nat>, bytes: seq<byte>) | Lost
  {
    predicate Succeeded() { Answer? && code == E_SUCCESS }

    /** The byte payload of the reply (none for a lost one). */
    function Data(): seq<byte> { if Answer? then bytes else [] }

    /** The i-th integer result of the call (0 where the reply has none). */
    function Value(i: nat): nat { if Answer? && i < |values| then values[i] else 0 }
  }

  /** The failure a caller raises for a reply that did not succeed. */
  function ReplyFailure(r: Reply, message: Message): (f: Failure)
    requires !r.Succeeded()
    ensures r.Lost? <==> f == TransportError
    ensures r.Answer? ==> f == RemoteError(message, r.code) && r.code != E_SUCCESS
  {
    if r.Lost? then TransportError else RemoteError(message, r.code)
  }

  /** The next reply of a reply stream: Lost once the stream is exhausted. */
  function Head(replies: seq<Reply>): Reply
  {
    if replies == [] then Lost else replies[0]
  }

  function Tail(replies: seq<Reply>): seq<Reply>
  {
    if replies == [] then [] else replies[1..]
  }

  /** A callback bound weakly to its owner: alive until the owner is reclaimed. */
  datatype Listener = Listener(owner: object, alive: bool)

  datatype Entry = Entry(cookie: nat, listener: Listener)

  /** One invocation of a listener by the dispatcher. */
  datatype Delivery = Delivery(event: Event, cookie: nat, owner: object, args: seq<int>)

  ghost predicate Increasing(s: seq<Entry>)
  {
    forall i, j :: 0 <= i < j < |s| ==> s[i].cookie < s[j].cookie
  }

  ghost predicate Below(s: seq<Entry>, bound: nat)
  {
    forall x :: x in s ==> x.cookie < bound
  }

  lemma AppendEntry(s: seq<Entry>, x: Entry)
    requires Increasing(s) && Below(s, x.cookie)
    ensures Increasing(s + [x]) && Below(s + [x], x.cookie + 1)
  {
    forall i, j | 0 <= i < j < |s + [x]| ensures (s + [x])[i].cookie < (s + [x])[j].cookie {
      if j == |s| {
        assert s[i] in s;
      }
    }
  }

  lemma BelowRaised(s: seq<Entry>, a: nat, b: nat)
    requires Below(s, a) && a <= b
    ensures Below(s, b)
  {
  }

  function Cookies(s: seq<Entry>): (cs: seq<nat>)
    ensures |cs| == |s| && forall i :: 0 <= i < |s| ==> cs[i] == s[i].cookie
  {
    if s == [] then [] else [s[0].cookie] + Cookies(s[1..])
  }

  function Find(s: seq<Entry>, cookie: nat): Option<Listener>
  {
    if s == [] then None
    else if s[0].cookie == cookie then Some(s[0].listener)
    else Find(s[1..], cookie)
  }

  /** The entries whose cookies are not in cs, in their order. */
  function Without(s: seq<Entry>, cs: set<nat>): (r: seq<Entry>)
    ensures forall x :: x in r ==> x in s && x.cookie !in cs
    ensures forall x :: x in s && x.cookie !in cs ==> x in r
    ensures |r| <= |s|
  {
    if s == [] then []
    else (if s[0].cookie in cs then [] else [s[0]]) + Without(s[1..], cs)
  }

  /** The entries whose listeners are alive. */
  function Live(s: seq<Entry>): (r: seq<Entry>)
  {
    if s == [] then []
    else (if s[0].listener.alive then [s[0]] else []) + Live(s[1..])
  }

  /** The entries with the listeners of owner marked dead: the owner was reclaimed. */
  function Killed(s: seq<Entry>, owner: object): (r: seq<Entry>)
    ensures |r| == |s|
    ensures forall i :: 0 <= i < |s| ==> r[i].cookie == s[i].cookie && r[i].listener.owner == s[i].listener.owner
  {
    if s == [] then []
    else
      var e := s[0];
      [if e.listener.owner == owner then e.(listener := e.listener.(alive := false)) else e] + Killed(s[1..], owner)
  }

  /** The cookies a listener removes from its own event's table while it runs. */
  function RemovedBy(reentrant: map<nat, set<nat>>, cookie: nat): set<nat>
  {
    if cookie in reentrant then reentrant[cookie] else {}
  }

  /** Where one pass of the dispatcher over a cookie snapshot has got to: the
      current entries, the entries invoked so far and the cookies found dead. */
  datatype Progress = Progress(entries: seq<Entry>, invoked: seq<Entry>, dead: set<nat>)

  /** _dispatch_callback's loop: visit the snapshot's cookies in its order, skip those
      removed meanwhile, invoke the live listeners (which may remove cookies of the
      same event, as `reentrant` says) and collect the dead ones. */
  function DispatchPass(entries: seq<Entry>, snapshot: seq<nat>, reentrant: map<nat, set<nat>>): Progress
    decreases |snapshot|
  {
    if snapshot == [] then Progress(entries, [], {})
    else
      var c := snapshot[0];
      match Find(entries, c)
      case None => DispatchPass(entries, snapshot[1..], reentrant)
      case Some(l) =>
        if l.alive then
          var rest := DispatchPass(Without(entries, RemovedBy(reentrant, c)), snapshot[1..], reentrant);
          rest.(invoked := [Entry(c, l)] + rest.invoked)
        else
          var rest := DispatchPass(entries, snapshot[1..], reentrant);
          rest.(dead := {c} + rest.dead)
  }

  /** A whole dispatch over the snapshot order: the table after pruning, and the
      listeners invoked. */
  function Dispatched(entries: seq<Entry>, order: seq<nat>, reentrant: map<nat, set<nat>>): (seq<Entry>, seq<Entry>)
  {
    var p := DispatchPass(entries, order, reentrant);
    (Without(p.entries, p.dead), p.invoked)
  }

  /** No cookie is listed twice. */
  ghost predicate Distinct(cs: seq<nat>)
  {
    forall i, j :: 0 <= i < j < |cs| ==> cs[i] != cs[j]
  }

  /** An order in which list(active_callbacks.keys()) may list the cookies of a
      table: each exactly once. A Python 2 dict lists its keys in hash-slot order,
      which the model leaves open. */
  ghost predicate Listing(order: seq<nat>, s: seq<Entry>)
  {
    Distinct(order) && forall c :: c in order <==> c in Cookies(s)
  }

  /** The elements of a occur in b, in the same order. */
  ghost predicate Subsequence(a: seq<nat>, b: seq<nat>)
    decreases |b|
  {
    a == [] || (b != [] && ((a[0] == b[0] && Subsequence(a[1..], b[1..])) || Subsequence(a, b[1..])))
  }

  /** A listener is untouched when no listener removes its cookie while running. */
  ghost predicate Untouched(reentrant: map<nat, set<nat>>, cookie: nat)
  {
    forall k :: k in reentrant ==> cookie !in reentrant[k]
  }

  /** The cookies of the entries whose listeners are dead. */
  function DeadCookies(s: seq<Entry>): set<nat>
  {
    if s == [] then {} else (if s[0].listener.alive then {} else {s[0].cookie}) + DeadCookies(s[1..])
  }

  lemma DistinctTail(cs: seq<nat>)
    requires Distinct(cs) && cs != []
    ensures Distinct(cs[1..]) && cs[0] !in cs[1..]
  {
    forall j | 0 <= j < |cs| - 1 ensures cs[1..][j] != cs[0] {
      assert cs[1..][j] == cs[j + 1];
    }
  }

  lemma DistinctCons(c: nat, cs: seq<nat>)
    requires Distinct(cs) && c !in cs
    ensures Distinct([c] + cs)
  {
    var t := [c] + cs;
    forall i, j | 0 <= i < j < |t| ensures t[i] != t[j] {
      assert t[j] == cs[j - 1];
      if i > 0 {
        assert t[i] == cs[i - 1];
      }
    }
  }

  lemma IncreasingTail(s: seq<Entry>)
    requires Increasing(s) && s != []
    ensures Increasing(s[1..])
    ensures forall x :: x in s[1..] ==> s[0].cookie < x.cookie
  {
    forall x | x in s[1..] ensures s[0].cookie < x.cookie {
      var j :| 0 <= j < |s[1..]| && s[1..][j] == x;
      assert s[j + 1] == x;
    }
  }

  lemma IncreasingCons(e: Entry, s: seq<Entry>)
    requires Increasing(s)
    requires forall x :: x in s ==> e.cookie < x.cookie
    ensures Increasing([e] + s)
  {
    var t := [e] + s;
    forall i, j | 0 <= i < j < |t| ensures t[i].cookie < t[j].cookie {
      assert t[j] == s[j - 1];
      if i > 0 {
        assert t[i] == s[i - 1];
      }
    }
  }

  lemma CookieListed(s: seq<Entry>, x: Entry)
    requires x in s
    ensures x.cookie in Cookies(s)
  {
    var i :| 0 <= i < |s| && s[i] == x;
    assert Cookies(s)[i] == x.cookie;
  }

  lemma {:induction false} FindInIncreasing(s: seq<Entry>, x: Entry)
    requires Increasing(s) && x in s
    ensures Find(s, x.cookie) == Some(x.listener)
  {
    if s[0] != x {
      IncreasingTail(s);
      FindInIncreasing(s[1..], x);
    }
  }

  lemma {:induction false} FindAbsent(s: seq<Entry>, c: nat)
    requires forall x :: x in s ==> x.cookie != c
    ensures Find(s, c) == None
  {
    if s != [] {
      FindAbsent(s[1..], c);
    }
  }

  lemma {:induction false} FindSome(s: seq<Entry>, c: nat)
    requires Find(s, c).Some?
    ensures Entry(c, Find(s, c).value) in s
  {
    if s[0].cookie != c {
      FindSome(s[1..], c);
    }
  }

  lemma {:induction false} WithoutIncreasing(s: seq<Entry>, cs: set<nat>)
    requires Increasing(s)
    ensures Increasing(Without(s, cs))
  {
    if s != [] {
      IncreasingTail(s);
      WithoutIncreasing(s[1..], cs);
      if s[0].cookie !in cs {
        IncreasingCons(s[0], Without(s[1..], cs));
      }
    }
  }

  lemma {:induction false} WithoutNothing(s: seq<Entry>)
    ensures Without(s, {}) == s
  {
    if s != [] {
      WithoutNothing(s[1..]);
    }
  }

  /** Two cookie sets that agree on the cookies present remove the same entries. */
  lemma {:induction false} WithoutSame(s: seq<Entry>, a: set<nat>, b: set<nat>)
    requires forall x :: x in s ==> (x.cookie in a <==> x.cookie in b)
    ensures Without(s, a) == Without(s, b)
  {
    if s != [] {
      WithoutSame(s[1..], a, b);
    }
  }

  /** In a table with distinct cookies, a cookie is dead exactly when its entry's listener is. */
  lemma {:induction false} DeadCookiesFound(s: seq<Entry>)
    requires Increasing(s)
    ensures forall c :: c in DeadCookies(s) <==> (Find(s, c).Some? && !Find(s, c).value.alive)
  {
    if s != [] {
      IncreasingTail(s);
      DeadCookiesFound(s[1..]);
      FindAbsent(s[1..], s[0].cookie);
    }
  }

  /** Pruning the dead cookies of a table leaves its live entries. */
  lemma {:induction false} PruneDead(s: seq<Entry>)
    requires Increasing(s)
    ensures Without(s, DeadCookies(s)) == Live(s)
  {
    if s != [] {
      IncreasingTail(s);
      DeadCookiesFound(s);
      DeadCookiesFound(s[1..]);
      forall x | x in s[1..] ensures x.cookie in DeadCookies(s) <==> x.cookie in DeadCookies(s[1..]) {
        FindInIncreasing(s[1..], x);
      }
      WithoutSame(s[1..], DeadCookies(s), DeadCookies(s[1..]));
      PruneDead(s[1..]);
    }
  }

  lemma {:induction false} LiveMembers(s: seq<Entry>)
    ensures forall x :: x in Live(s) <==> x in s && x.listener.alive
  {
    if s != [] {
      LiveMembers(s[1..]);
    }
  }

  /** Without removals, a pass leaves the table as it is, invokes exactly the live
      listeners of the snapshot and collects exactly its dead ones. */
  lemma {:induction false} PassWithoutReentry(all: seq<Entry>, snapshot: seq<nat>)
    requires Increasing(all)
    ensures var p := DispatchPass(all, snapshot, map[]);
            p.entries == all &&
            (forall x :: x in p.invoked <==> x in all && x.listener.alive && x.cookie in snapshot) &&
            (forall c :: c in p.dead <==> c in snapshot && c in DeadCookies(all))
    decreases |snapshot|
  {
    if snapshot != [] {
      var c := snapshot[0];
      var tail := snapshot[1..];
      PassWithoutReentry(all, tail);
      DeadCookiesFound(all);
      match Find(all, c) {
        case None =>
          forall x | x in all ensures x.cookie != c {
            FindInIncreasing(all, x);
          }
        case Some(l) =>
          FindSome(all, c);
          forall x | x in all && x.cookie == c ensures x == Entry(c, l) {
            FindInIncreasing(all, x);
          }
          if l.alive {
            assert RemovedBy(map[], c) == {};
            WithoutNothing(all);
          }
      }
    }
  }

  /** With no listener removing others, dispatch in any listing order invokes
      exactly the live listeners, and afterwards the table holds exactly those. */
  lemma DispatchWithoutReentry(entries: seq<Entry>, order: seq<nat>)
    requires Increasing(entries) && Listing(order, entries)
    ensures Dispatched(entries, order, map[]).0 == Live(entries)
    ensures forall x :: x in Dispatched(entries, order, map[]).1 <==> x in Live(entries)
  {
    var p := DispatchPass(entries, order, map[]);
    PassWithoutReentry(entries, order);
    forall x | x in entries ensures x.cookie in order {
      CookieListed(entries, x);
    }
    WithoutSame(entries, p.dead, DeadCookies(entries));
    PruneDead(entries);
    LiveMembers(entries);
  }

  /** A pass only removes entries, and keeps them in cookie order. */
  lemma {:induction false} PassShrinks(cur: seq<Entry>, snapshot: seq<nat>, reentrant: map<nat, set<nat>>)
    requires Increasing(cur)
    ensures var p := DispatchPass(cur, snapshot, reentrant);
            Increasing(p.entries) && forall x :: x in p.entries ==> x in cur
    decreases |snapshot|
  {
    if snapshot != [] {
      var c := snapshot[0];
      match Find(cur, c) {
        case None =>
          PassShrinks(cur, snapshot[1..], reentrant);
        case Some(l) =>
          if l.alive {
            WithoutIncreasing(cur, RemovedBy(reentrant, c));
            PassShrinks(Without(cur, RemovedBy(reentrant, c)), snapshot[1..], reentrant);
          } else {
            PassShrinks(cur, snapshot[1..], reentrant);
          }
      }
    }
  }

  /** A pass over a snapshot without repetitions invokes only live listeners of the
      table, for cookies of the snapshot, each cookie at most once and in the
      snapshot's order. */
  lemma {:induction false} PassInvoked(cur: seq<Entry>, snapshot: seq<nat>, reentrant: map<nat, set<nat>>)
    requires Increasing(cur) && Distinct(snapshot)
    ensures var p := DispatchPass(cur, snapshot, reentrant);
            (forall x :: x in p.invoked ==> x in cur && x.listener.alive && x.cookie in snapshot) &&
            Distinct(Cookies(p.invoked)) && Subsequence(Cookies(p.invoked), snapshot)
    decreases |snapshot|
  {
    if snapshot != [] {
      var c := snapshot[0];
      var tail := snapshot[1..];
      DistinctTail(snapshot);
      match Find(cur, c) {
        case None =>
          PassInvoked(cur, tail, reentrant);
        case Some(l) =>
          if l.alive {
            var next := Without(cur, RemovedBy(reentrant, c));
            WithoutIncreasing(cur, RemovedBy(reentrant, c));
            PassInvoked(next, tail, reentrant);
            FindSome(cur, c);
            var rest := DispatchPass(next, tail, reentrant).invoked;
            var cs := Cookies(rest);
            forall k | 0 <= k < |cs| ensures cs[k] != c {
              assert rest[k] in rest;
            }
            DistinctCons(c, cs);
            assert Cookies([Entry(c, l)] + rest) == [c] + cs;
            assert ([c] + cs)[1..] == cs;
          } else {
            PassInvoked(cur, tail, reentrant);
          }
      }
    }
  }

  /** A pass collects as dead every dead listener of the snapshot still present, and
      only cookies whose entries are dead. */
  lemma {:induction false} PassDead(cur: seq<Entry>, snapshot: seq<nat>, reentrant: map<nat, set<nat>>)
    requires Increasing(cur)
    ensures var p := DispatchPass(cur, snapshot, reentrant);
            (forall x :: x in p.entries && !x.listener.alive && x.cookie in snapshot ==> x.cookie in p.dead) &&
            (forall c :: c in p.dead ==> Find(cur, c).Some? && !Find(cur, c).value.alive)
    decreases |snapshot|
  {
    if snapshot != [] {
      var c := snapshot[0];
      var tail := snapshot[1..];
      match Find(cur, c) {
        case None =>
          PassDead(cur, tail, reentrant);
          PassShrinks(cur, tail, reentrant);
          forall x | x in cur ensures x.cookie != c {
            FindInIncreasing(cur, x);
          }
        case Some(l) =>
          if l.alive {
            var next := Without(cur, RemovedBy(reentrant, c));
            WithoutIncreasing(cur, RemovedBy(reentrant, c));
            PassDead(next, tail, reentrant);
            PassShrinks(next, tail, reentrant);
            var rest := DispatchPass(next, tail, reentrant);
            forall x | x in cur && !x.listener.alive ensures x.cookie != c {
              FindInIncreasing(cur, x);
            }
            forall c' | c' in rest.dead ensures Find(cur, c').Some? && !Find(cur, c').value.alive {
              FindSome(next, c');
              FindInIncreasing(cur, Entry(c', Find(next, c').value));
            }
          } else {
            PassDead(cur, tail, reentrant);
          }
      }
    }
  }

  /** A live listener nobody removes stays in the table, and is invoked if the
      snapshot holds its cookie. */
  lemma {:induction false} PassKeeps(cur: seq<Entry>, snapshot: seq<nat>, reentrant: map<nat, set<nat>>)
    requires Increasing(cur)
    ensures var p := DispatchPass(cur, snapshot, reentrant);
            (forall x :: x in cur && Untouched(reentrant, x.cookie) ==> x in p.entries) &&
            (forall x :: x in cur && x.listener.alive && x.cookie in snapshot && Untouched(reentrant, x.cookie) ==>
                         x in p.invoked)
    decreases |snapshot|
  {
    if snapshot != [] {
      var c := snapshot[0];
      var tail := snapshot[1..];
      match Find(cur, c) {
        case None =>
          PassKeeps(cur, tail, reentrant);
          forall x | x in cur ensures x.cookie != c {
            FindInIncreasing(cur, x);
          }
        case Some(l) =>
          if l.alive {
            var next := Without(cur, RemovedBy(reentrant, c));
            WithoutIncreasing(cur, RemovedBy(reentrant, c));
            PassKeeps(next, tail, reentrant);
            forall x | x in cur && Untouched(reentrant, x.cookie) ensures x in next {
              assert x.cookie !in RemovedBy(reentrant, c);
            }
            forall x | x in cur && x.cookie == c ensures x == Entry(c, l) {
              FindInIncreasing(cur, x);
            }
          } else {
            PassKeeps(cur, tail, reentrant);
            forall x | x in cur && x.listener.alive ensures x.cookie != c {
              FindInIncreasing(cur, x);
            }
          }
      }
    }
  }

  /** After a dispatch, whatever the listeners removed meanwhile, the table holds only
      live listeners it already held: no dead listener of the snapshot remains. */
  lemma DispatchPrunes(entries: seq<Entry>, order: seq<nat>, reentrant: map<nat, set<nat>>)
    requires Increasing(entries) && Listing(order, entries)
    ensures forall x :: x in Dispatched(entries, order, reentrant).0 ==> x in entries && x.listener.alive
  {
    var p := DispatchPass(entries, order, reentrant);
    PassShrinks(entries, order, reentrant);
    PassDead(entries, order, reentrant);
    forall x | x in Without(p.entries, p.dead) ensures x in entries && x.listener.alive {
      CookieListed(entries, x);
    }
  }

  /** Dispatch invokes only live listeners of the table, each at most once, in the
      order the snapshot lists them. */
  lemma DispatchInvokesOnce(entries: seq<Entry>, order: seq<nat>, reentrant: map<nat, set<nat>>)
    requires Increasing(entries) && Listing(order, entries)
    ensures var invoked := Dispatched(entries, order, reentrant).1;
            (forall x :: x in invoked ==> x in entries && x.listener.alive) &&
            (forall i, j :: 0 <= i < j < |invoked| ==> invoked[i].cookie != invoked[j].cookie) &&
            Subsequence(Cookies(invoked), order)
  {
    PassInvoked(entries, order, reentrant);
  }

  /** A live listener that no listener removes is invoked and stays registered. */
  lemma DispatchKeepsUntouched(entries: seq<Entry>, order: seq<nat>, reentrant: map<nat, set<nat>>, x: Entry)
    requires Increasing(entries) && Listing(order, entries)
    requires x in entries && x.listener.alive && Untouched(reentrant, x.cookie)
    ensures x in Dispatched(entries, order, reentrant).0 && x in Dispatched(entries, order, reentrant).1
  {
    var p := DispatchPass(entries, order, reentrant);
    CookieListed(entries, x);
    PassKeeps(entries, order, reentrant);
    PassDead(entries, order, reentrant);
    FindInIncreasing(entries, x);
  }

  /** The transport and the callback table of one RED Brick connection. */
  class Brick {
    const connected: bool
    var calls: seq<Call>
    var script: seq<Reply>
    var table: map<Event, seq<Entry>>
    var nextCookie: nat
    var subscribed: set<Event>
    var registrations: seq<Event>
    var deliveries: seq<Delivery>

    /** Cookies within an event are distinct and increasing, all below the counter;
        the transport is subscribed to exactly the events of the table. */
    ghost predicate Valid()
      reads this`nextCookie, this`subscribed, this`table
    {
      nextCookie >= 1 &&
      subscribed == table.Keys &&
      forall e :: e in table ==> Increasing(table[e]) && Below(table[e], nextCookie)
    }

    /** The replies checked calls will get: none while not connected. */
    function Stream(): seq<Reply>
      reads this`script
    {
      if connected then script else []
    }

    constructor (connected: bool, script: seq<Reply>)
      ensures Valid()
      ensures this.connected == connected && this.script == script
      ensures calls == [] && table == map[] && nextCookie == 1
      ensures subscribed == {} && registrations == [] && deliveries == []
    {
      this.connected := connected;
      this.script := script;
      calls := [];
      table := map[];
      nextCookie := 1;
      subscribed := {};
      registrations := [];
      deliveries := [];
    }

    /** A checked call: recorded, answered by the next scripted reply. */
    method Request(c: Call) returns (r: Reply)
      modifies this`calls, this`script
      ensures calls == old(calls) + [c]
      ensures r == Head(old(Stream()))
      ensures Stream() == Tail(old(Stream()))
      ensures r.Answer? ==> |Stream()| == |old(Stream())| - 1
    {
      calls := calls + [c];
      if connected && script != [] {
        r := script[0];
        script := script[1..];
      } else {
        r := Lost;
      }
    }

    /** An unchecked call: recorded; it raises only when not connected. */
    method Send(c: Call) returns (sent: bool)
      modifies this`calls
      ensures calls == old(calls) + [c]
      ensures sent == connected
    {
      calls := calls + [c];
      sent := connected;
    }

    /** add_callback: a fresh cookie; the transport subscription is made only for
        the first listener of an event. */
    method AddCallback(event: Event, listener: Listener) returns (cookie: nat)
      modifies this`table, this`nextCookie, this`subscribed, this`registrations
      ensures old(Valid()) ==> Valid() && cookie >= 1 && forall e :: e in old(table) ==> Below(old(table)[e], cookie)
      ensures cookie == old(nextCookie) && nextCookie == cookie + 1
      ensures event in old(table) ==> table == old(table)[event := old(table)[event] + [Entry(cookie, listener)]]
      ensures event !in old(table) ==> table == old(table)[event := [Entry(cookie, listener)]]
      ensures registrations == old(registrations) + (if event in old(table) then [] else [event])
      ensures subscribed == old(subscribed) + (if event in old(table) then {} else {event})
    {
      cookie := nextCookie;
      var entry := Entry(cookie, listener);
      if Valid() {
        AppendEntry(if event in table then table[event] else [], entry);
        forall e | e in table
          ensures Increasing(table[e]) && Below(table[e], cookie + 1)
        {
          BelowRaised(table[e], cookie, cookie + 1);
        }
      }
      nextCookie := nextCookie + 1;
      if event in table {
        table := table[event := table[event] + [Entry(cookie, listener)]];
      } else {
        table := table[event := [Entry(cookie, listener)]];
        registrations := registrations + [event];
        subscribed := subscribed + {event};
      }
    }

    /** remove_callback: an unknown event or cookie leaves the table as it is. */
    method RemoveCallback(event: Event, cookie: nat)
      modifies this`table
      ensures old(Valid()) ==> Valid()
      ensures event in old(table) ==> table == old(table)[event := Without(old(table)[event], {cookie})]
      ensures event !in old(table) ==> table == old(table)
    {
      if event in table {
        if Valid() {
          WithoutIncreasing(table[event], {cookie});
        }
        table := table[event := Without(table[event], {cookie})];
      }
    }

    /** remove_all_callbacks: forget every listener and every subscription. */
    method RemoveAllCallbacks()
      requires Valid()
      modifies this`table, this`subscribed
      ensures Valid() && table == map[] && subscribed == {}
    {
      subscribed := {};
      table := map[];
    }

    /** The owner of some listeners was reclaimed: they are dead from now on. */
    method Collect(owner: object)
      modifies this`table
      ensures old(Valid()) ==> Valid()
      ensures table.Keys == old(table).Keys
      ensures forall e :: e in table ==> table[e] == Killed(old(table)[e], owner)
    {
      table := map e | e in table :: Killed(table[e], owner);
    }

    /** _dispatch_callback for an event the transport delivers with args: invoke the
        listeners in the order the key snapshot lists them, then prune the dead ones. */
    method Dispatch(event: Event, args: seq<int>, order: seq<nat>, reentrant: map<nat, set<nat>>)
      requires Valid()
      requires event in table ==> Listing(order, table[event])
      modifies this`table, this`deliveries
      ensures Valid()
      ensures event !in old(table) ==> table == old(table) && deliveries == old(deliveries)
      ensures event in old(table) ==>
                var (after, invoked) := Dispatched(old(table)[event], order, reentrant);
                table == old(table)[event := after] &&
                deliveries == old(deliveries) + Deliveries(event, invoked, args)
    {
      if event !in table {
        return;
      }
      var cur, invoked, dead := InvokeListeners(event, table[event], order, args, reentrant);
      var after := Without(cur, dead);
      PassShrinks(old(table)[event], order, reentrant);
      WithoutIncreasing(cur, dead);
      assert Below(after, nextCookie);
      table := table[event := after];
    }

    /** The loop of _dispatch_callback over a snapshot of the event's cookies. */
    method InvokeListeners(event: Event, entries: seq<Entry>, snapshot: seq<nat>, args: seq<int>, reentrant: map<nat, set<nat>>)
      returns (cur: seq<Entry>, invoked: seq<Entry>, dead: set<nat>)
      modifies this`deliveries
      ensures DispatchPass(entries, snapshot, reentrant) == Progress(cur, invoked, dead)
      ensures deliveries == old(deliveries) + Deliveries(event, invoked, args)
    {
      cur := entries;
      var i := 0;
      invoked := [];
      dead := {};
      StepStart(cur, snapshot, reentrant);
      while i < |snapshot|
        invariant 0 <= i <= |snapshot|
        invariant Resumed(invoked, dead, DispatchPass(cur, snapshot[i..], reentrant)) == DispatchPass(entries, snapshot, reentrant)
        invariant deliveries == old(deliveries) + Deliveries(event, invoked, args)
      {
        var c := snapshot[i];
        var found := Find(cur, c);
        if found.Some? && found.value.alive {
          var l := found.value;
          StepInvoke(cur, snapshot, i, reentrant, invoked, dead);
          Deliver(event, Entry(c, l), args, old(deliveries), invoked);
          invoked := invoked + [Entry(c, l)];
          cur := Without(cur, RemovedBy(reentrant, c));
        } else if found.Some? {
          StepDead(cur, snapshot, i, reentrant, invoked, dead);
          dead := dead + {c};
        } else {
          StepSkip(cur, snapshot, i, reentrant, invoked, dead);
        }
        i := i + 1;
      }
      StepDone(cur, snapshot, reentrant, invoked, dead);
    }

    /** One listener invoked with args: its delivery is recorded after the earlier ones. */
    method Deliver(event: Event, e: Entry, args: seq<int>, ghost base: seq<Delivery>, ghost invoked: seq<Entry>)
      requires deliveries == base + Deliveries(event, invoked, args)
      modifies this`deliveries
      ensures deliveries == base + Deliveries(event, invoked + [e], args)
    {
      DeliveriesAppend(event, invoked, [e], args);
      var d := Delivery(event, e.cookie, e.listener.owner, args);
      assert Deliveries(event, [e], args) == [d];
      deliveries := deliveries + [d];
    }
  }

  /** A pass resumed after having invoked some listeners and found some dead. */
  function Resumed(invoked: seq<Entry>, dead: set<nat>, p: Progress): Progress
  {
    Progress(p.entries, invoked + p.invoked, dead + p.dead)
  }

  lemma StepSkip(cur: seq<Entry>, snapshot: seq<nat>, i: nat, reentrant: map<nat, set<nat>>, invoked: seq<Entry>, dead: set<nat>)
    requires i < |snapshot| && Find(cur, snapshot[i]).None?
    ensures Resumed(invoked, dead, DispatchPass(cur, snapshot[i..], reentrant)) ==
            Resumed(invoked, dead, DispatchPass(cur, snapshot[i + 1..], reentrant))
  {
    assert snapshot[i..][1..] == snapshot[i + 1..];
  }

  lemma StepInvoke(cur: seq<Entry>, snapshot: seq<nat>, i: nat, reentrant: map<nat, set<nat>>, invoked: seq<Entry>, dead: set<nat>)
    requires i < |snapshot| && Find(cur, snapshot[i]).Some? && Find(cur, snapshot[i]).value.alive
    ensures var c := snapshot[i];
            Resumed(invoked, dead, DispatchPass(cur, snapshot[i..], reentrant)) ==
            Resumed(invoked + [Entry(c, Find(cur, c).value)], dead,
                    DispatchPass(Without(cur, RemovedBy(reentrant, c)), snapshot[i + 1..], reentrant))
  {
    assert snapshot[i..][1..] == snapshot[i + 1..];
  }

  lemma StepDead(cur: seq<Entry>, snapshot: seq<nat>, i: nat, reentrant: map<nat, set<nat>>, invoked: seq<Entry>, dead: set<nat>)
    requires i < |snapshot| && Find(cur, snapshot[i]).Some? && !Find(cur, snapshot[i]).value.alive
    ensures Resumed(invoked, dead, DispatchPass(cur, snapshot[i..], reentrant)) ==
            Resumed(invoked, dead + {snapshot[i]}, DispatchPass(cur, snapshot[i + 1..], reentrant))
  {
    assert snapshot[i..][1..] == snapshot[i + 1..];
  }

  lemma StepDone(cur: seq<Entry>, snapshot: seq<nat>, reentrant: map<nat, set<nat>>, invoked: seq<Entry>, dead: set<nat>)
    ensures Resumed(invoked, dead, DispatchPass(cur, snapshot[|snapshot|..], reentrant)) == Progress(cur, invoked, dead)
  {
    assert snapshot[|snapshot|..] == [];
    assert invoked + [] == invoked;
  }

  lemma StepStart(cur: seq<Entry>, snapshot: seq<nat>, reentrant: map<nat, set<nat>>)
    ensures Resumed([], {}, DispatchPass(cur, snapshot[0..], reentrant)) == DispatchPass(cur, snapshot, reentrant)
  {
    assert snapshot[0..] == snapshot;
  }

  /** The deliveries made for a sequence of invoked entries. */
  function Deliveries(event: Event, invoked: seq<Entry>, args: seq<int>): seq<Delivery>
  {
    if invoked == [] then []
    else [Delivery(event, invoked[0].cookie, invoked[0].listener.owner, args)] + Deliveries(event, invoked[1..], args)
  }

  lemma {:induction false} DeliveriesAppend(event: Event, a: seq<Entry>, b: seq<Entry>, args: seq<int>)
    ensures Deliveries(event, a + b, args) == Deliveries(event, a, args) + Deliveries(event, b, args)
  {
    if a != [] {
      assert (a + b)[1..] == a[1..] + b;
      DeliveriesAppend(event, a[1..], b, args);
    } else {
      assert a + b == b;
    }
  }
}
