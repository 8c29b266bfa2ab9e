/** The request scheduler of src/protocol.ts: class `MPDProtocol`, which writes commands to
    the daemon, batching them into command lists and idling when there is nothing to do,
    and settles each request's promise with the response unit that answers it. */
module Protocol {
  import opened Wrappers
  import opened Text
  import opened Responses

  /** A pending request: a user's command, identified by its promise, or the synthetic
      `idle` request, whose resolve runs `idleCallback` and whose reject does nothing. */
  datatype Request = UserRequest(id: nat, cmd: string) | IdleRequest

  function Cmd(r: Request): string
  {
    match r
    case UserRequest(_, cmd) => cmd
    case IdleRequest => "idle"
  }

  /** What the protocol emits to its listeners. */
  datatype Event =
    | SocketEnd
    | Ready
    | SocketError(message: string)
    | Changed(subsystems: seq<string>)
    | ChangedSubsystem(subsystem: string)

  /** How a promise handed out by the protocol was settled. */
  datatype Settlement =
    | ConnectResolved
    | Resolved(id: nat, response: MPDResponse)
    | Rejected(id: nat, error: MPDError)
    | Thrown(id: nat, message: string)

  const NotConnected := "Not connected"
  const NoIdle := "noidle\n"
  const UnexpectedPrefix := "Received unexpected message:\n"
  const DisconnectedError := MPDError(-1, "Disconnected")

  // ---------------------------------------------------------------------------------
  // Request identities

  function IdOf(r: Request): seq<nat>
  {
    if r.UserRequest? then [r.id] else []
  }

  /** The promises of the user requests in `rs`, in order. */
  function Ids(rs: seq<Request>): seq<nat>
  {
    if |rs| == 0 then [] else IdOf(rs[0]) + Ids(rs[1..])
  }

  lemma {:induction false} IdsAppend(a: seq<Request>, b: seq<Request>)
    ensures Ids(a + b) == Ids(a) + Ids(b)
  {
    if |a| > 0 {
      assert (a + b)[1..] == a[1..] + b;
      IdsAppend(a[1..], b);
    } else {
      assert a + b == b;
    }
  }

  function SettledIdOf(s: Settlement): seq<nat>
  {
    match s
    case ConnectResolved => []
    case Resolved(id, _) => [id]
    case Rejected(id, _) => [id]
    case Thrown(id, _) => [id]
  }

  /** The promises settled by `ss`, in order. */
  function SettledIds(ss: seq<Settlement>): seq<nat>
  {
    if |ss| == 0 then [] else SettledIdOf(ss[0]) + SettledIds(ss[1..])
  }

  lemma {:induction false} SettledIdsAppend(a: seq<Settlement>, b: seq<Settlement>)
    ensures SettledIds(a + b) == SettledIds(a) + SettledIds(b)
  {
    if |a| > 0 {
      assert (a + b)[1..] == a[1..] + b;
      SettledIdsAppend(a[1..], b);
    } else {
      assert a + b == b;
    }
  }

  // ---------------------------------------------------------------------------------
  // Settling requests

  /** `request.reject(err)`: the idle request's reject does nothing. */
  function Rejection(r: Request, err: MPDError): seq<Settlement>
  {
    if r.UserRequest? then [Rejected(r.id, err)] else []
  }

  /** `requests.forEach(request => request.reject(err))` */
  function Rejections(rs: seq<Request>, err: MPDError): (ss: seq<Settlement>)
    ensures |ss| <= |rs|
  {
    if |rs| == 0 then [] else Rejection(rs[0], err) + Rejections(rs[1..], err)
  }

  lemma {:induction false} RejectionsAppend(a: seq<Request>, b: seq<Request>, err: MPDError)
    ensures Rejections(a + b, err) == Rejections(a, err) + Rejections(b, err)
  {
    if |a| > 0 {
      assert (a + b)[1..] == a[1..] + b;
      RejectionsAppend(a[1..], b, err);
    } else {
      assert a + b == b;
    }
  }

  /** Rejecting a list of requests settles exactly its user requests, each once, in order,
      and every settlement carries the given error. */
  /** Rejecting one more request of a prefix appends its rejection. */
  lemma RejectionsPrefix(rs: seq<Request>, i: nat, err: MPDError)
    requires i < |rs|
    ensures Rejections(rs[..i + 1], err) == Rejections(rs[..i], err) + Rejection(rs[i], err)
  {
    assert rs[..i + 1] == rs[..i] + [rs[i]];
    RejectionsAppend(rs[..i], [rs[i]], err);
    assert Rejections([rs[i]], err) == Rejection(rs[i], err) + Rejections([], err);
  }

  lemma {:induction false} RejectionsSettle(rs: seq<Request>, err: MPDError)
    ensures SettledIds(Rejections(rs, err)) == Ids(rs)
    ensures forall k :: 0 <= k < |Rejections(rs, err)| ==>
      Rejections(rs, err)[k].Rejected? && Rejections(rs, err)[k].error == err
  {
    if |rs| > 0 {
      RejectionsSettle(rs[1..], err);
      SettledIdsAppend(Rejection(rs[0], err), Rejections(rs[1..], err));
    }
  }

  /** `request.resolve(response)` for a user request; the idle request's resolve runs
      `idleCallback` instead. */
  function Resolution(r: Request, response: MPDResponse): seq<Settlement>
  {
    if r.UserRequest? then [Resolved(r.id, response)] else []
  }

  /** `ids` lists each of 0 .. n - 1 and nothing else, and has n entries, so it lists
      none of them twice. */
  ghost predicate Covers(ids: seq<nat>, n: nat)
  {
    |ids| == n && forall x: nat :: x in ids <==> x < n
  }

  lemma CoversSnoc(ids: seq<nat>, n: nat)
    requires Covers(ids, n)
    ensures Covers(ids + [n], n + 1)
  {
  }

  lemma CoversRearranged(ids: seq<nat>, ids': seq<nat>, n: nat)
    requires Covers(ids, n) && |ids'| == |ids|
    requires forall x :: x in ids' <==> x in ids
    ensures Covers(ids', n)
  {
  }

  /** Every promise handed out so far, 0 .. n - 1, is either settled or outstanding
      (running or queued), and none is both or appears twice. */
  ghost predicate Accounted(settled: seq<Settlement>, running: seq<Request>, queued: seq<Request>, n: nat)
  {
    Covers(SettledIds(settled) + Ids(running) + Ids(queued), n)
  }

  lemma AccountEnqueue(settled: seq<Settlement>, running: seq<Request>, queued: seq<Request>, n: nat, cmd: string)
    requires Accounted(settled, running, queued, n)
    ensures Accounted(settled, running, queued + [UserRequest(n, cmd)], n + 1)
  {
    IdsAppend(queued, [UserRequest(n, cmd)]);
    var all := SettledIds(settled) + Ids(running) + Ids(queued);
    assert SettledIds(settled) + Ids(running) + Ids(queued + [UserRequest(n, cmd)]) == all + [n];
    CoversSnoc(all, n);
  }

  lemma AccountThrown(settled: seq<Settlement>, running: seq<Request>, queued: seq<Request>, n: nat, message: string)
    requires Accounted(settled, running, queued, n)
    ensures Accounted(settled + [Thrown(n, message)], running, queued, n + 1)
  {
    SettledIdsAppend(settled, [Thrown(n, message)]);
    var all := SettledIds(settled) + Ids(running) + Ids(queued);
    var all' := SettledIds(settled + [Thrown(n, message)]) + Ids(running) + Ids(queued);
    assert all' == SettledIds(settled) + [n] + Ids(running) + Ids(queued);
    CoversSnoc(all, n);
    CoversRearranged(all + [n], all', n + 1);
  }

  lemma AccountConnectResolved(settled: seq<Settlement>, running: seq<Request>, queued: seq<Request>, n: nat)
    requires Accounted(settled, running, queued, n)
    ensures Accounted(settled + [ConnectResolved], running, queued, n)
  {
    SettledIdsAppend(settled, [ConnectResolved]);
    assert SettledIds(settled + [ConnectResolved]) == SettledIds(settled);
  }

  lemma AccountResolve(settled: seq<Settlement>, running: seq<Request>, queued: seq<Request>, n: nat, response: MPDResponse)
    requires |running| > 0 && Accounted(settled, running, queued, n)
    ensures Accounted(settled + Resolution(running[0], response), running[1..], queued, n)
  {
    var S, i, R, Q := SettledIds(settled), IdOf(running[0]), Ids(running[1..]), Ids(queued);
    SettledIdsAppend(settled, Resolution(running[0], response));
    assert SettledIds(Resolution(running[0], response)) == i;
    assert Ids(running) == i + R;
    assert (S + i) + R + Q == S + (i + R) + Q;
  }

  lemma AccountReject(settled: seq<Settlement>, running: seq<Request>, queued: seq<Request>, n: nat, err: MPDError)
    requires |running| > 0 && Accounted(settled, running, queued, n)
    ensures Accounted(settled + Rejection(running[0], err), [], queued + running[1..], n)
  {
    SettledIdsAppend(settled, Rejection(running[0], err));
    assert SettledIds(Rejection(running[0], err)) == IdOf(running[0]);
    assert Ids(running) == IdOf(running[0]) + Ids(running[1..]);
    IdsAppend(queued, running[1..]);
    var S, i, R, Q := SettledIds(settled), IdOf(running[0]), Ids(running[1..]), Ids(queued);
    var all := S + (i + R) + Q;
    var all' := (S + i) + [] + (Q + R);
    assert all' == SettledIds(settled + Rejection(running[0], err)) + Ids([]) + Ids(queued + running[1..]);
    CoversRearranged(all, all', n);
  }

  lemma AccountDispatch(settled: seq<Settlement>, queued: seq<Request>, n: nat)
    requires Accounted(settled, [], queued, n)
    ensures Accounted(settled, Batch(queued), [], n)
  {
    assert Ids(Batch(queued)) == Ids(queued);
    assert SettledIds(settled) + Ids(Batch(queued)) + Ids([]) == SettledIds(settled) + Ids([]) + Ids(queued);
  }

  lemma AccountDisconnect(settled: seq<Settlement>, running: seq<Request>, queued: seq<Request>, n: nat, err: MPDError)
    requires Accounted(settled, running, queued, n)
    ensures Accounted(settled + Rejections(running, err) + Rejections(queued, err), [], [], n)
  {
    SettledIdsAppend(settled + Rejections(running, err), Rejections(queued, err));
    SettledIdsAppend(settled, Rejections(running, err));
    RejectionsSettle(running, err);
    RejectionsSettle(queued, err);
    assert SettledIds(settled + Rejections(running, err) + Rejections(queued, err)) + Ids([]) + Ids([])
        == SettledIds(settled) + Ids(running) + Ids(queued);
  }

  // ---------------------------------------------------------------------------------
  // Dispatch and wire framing

  /** The requests `dequeueRequests` starts: everything queued, or else the idle request. */
  function Batch(queued: seq<Request>): (running: seq<Request>)
    ensures |running| > 0
    ensures running == queued <==> |queued| > 0
    ensures |queued| == 0 ==> running == [IdleRequest]
  {
    if |queued| > 0 then queued else [IdleRequest]
  }

  const ListBegin := "command_list_ok_begin"
  const ListEnd := "command_list_end"


  /** Each line followed by a line feed. */
  function LinesText(lines: seq<string>): string
  {
    if |lines| == 0 then "" else lines[0] + "\n" + LinesText(lines[1..])
  }

  lemma {:induction false} LinesTextSnoc(lines: seq<string>, line: string)
    ensures LinesText(lines + [line]) == LinesText(lines) + line + "\n"
  {
    if |lines| > 0 {
      assert (lines + [line])[1..] == lines[1..] + [line];
      LinesTextSnoc(lines[1..], line);
    } else {
      assert lines + [line] == [line];
    }
  }

  function Cmds(rs: seq<Request>): (cs: seq<string>)
    ensures |cs| == |rs| && forall i :: 0 <= i < |rs| ==> cs[i] == Cmd(rs[i])
  {
    seq(|rs|, i requires 0 <= i < |rs| => Cmd(rs[i]))
  }

  /** The lines `dequeueRequests` writes for the running requests: a single command alone,
      any other number wrapped as a command list. */
  function Framed(running: seq<Request>): seq<string>
  {
    if |running| == 1 then [Cmd(running[0])] else [ListBegin] + Cmds(running) + [ListEnd]
  }

  /** The text `dequeueRequests` writes. */
  function CommandString(running: seq<Request>): (text: string)
    ensures |running| == 1 ==> text == Cmd(running[0]) + "\n"
    ensures |running| != 1 ==> StartsWith(text, ListBegin + "\n")
  {
    assert |running| == 1 ==> Framed(running) == [Cmd(running[0])] && LinesText([Cmd(running[0])]) == Cmd(running[0]) + "\n" + LinesText([]);
    LinesText(Framed(running))
  }

  /** Text written line by line is the lines and one empty piece joined by line feeds. */
  lemma {:induction false} LinesTextJoin(lines: seq<string>)
    ensures LinesText(lines) == Join(lines + [""], "\n")
    decreases |lines|
  {
    if |lines| == 0 {
      assert lines + [""] == [""];
    } else {
      LinesTextJoin(lines[1..]);
      assert (lines + [""])[1..] == lines[1..] + [""];
    }
  }

  /** Text written line by line splits back into its lines, plus the empty piece after the
      last line feed. */
  lemma SplitLinesText(lines: seq<string>)
    requires forall i :: 0 <= i < |lines| ==> '\n' !in lines[i]
    ensures Split(LinesText(lines), '\n') == lines + [""]
  {
    LinesTextJoin(lines);
    var parts := lines + [""];
    assert forall i :: 0 <= i < |parts| ==> '\n' !in parts[i] by {
      forall i | 0 <= i < |parts|
        ensures '\n' !in parts[i]
      {
        if i < |lines| {
          assert parts[i] == lines[i];
        }
      }
    }
    SplitJoin(parts, '\n');
  }

  /** The wire framing: the text written for the running requests is exactly the framed
      lines, one command per line, in order: `cmd` alone for one request, otherwise
      `command_list_ok_begin`, every command, then `command_list_end`. */
  lemma CommandFraming(running: seq<Request>)
    requires forall i :: 0 <= i < |running| ==> '\n' !in Cmd(running[i])
    ensures Split(CommandString(running), '\n') == Framed(running) + [""]
    ensures |running| == 1 ==> Framed(running) == [Cmd(running[0])]
    ensures |running| != 1 ==> Framed(running) == [ListBegin] + Cmds(running) + [ListEnd]
  {
    assert '\n' !in ListBegin && '\n' !in ListEnd;
    var lines := Framed(running);
    forall i | 0 <= i < |lines|
      ensures '\n' !in lines[i]
    {
      if |running| != 1 && 0 < i < |lines| - 1 {
        assert lines[i] == Cmd(running[i - 1]);
      }
    }
    SplitLinesText(lines);
  }

  /** The string building of `dequeueRequests`: a single command on its own line, or the
      command list around all of them. */
  method FrameCommands(running: seq<Request>) returns (commandString: string)
    ensures commandString == CommandString(running)
  {
    if |running| == 1 {
      commandString := Cmd(running[0]) + "\n";
      assert LinesText([Cmd(running[0])]) == Cmd(running[0]) + "\n" + LinesText([]);
    } else {
      commandString := ListBegin + "\n";
      assert LinesText([ListBegin]) == ListBegin + "\n" + LinesText([]);
      var i := 0;
      while i < |running|
        invariant 0 <= i <= |running|
        invariant commandString == LinesText([ListBegin] + Cmds(running[..i]))
      {
        assert Cmds(running[..i + 1]) == Cmds(running[..i]) + [Cmd(running[i])];
        LinesTextSnoc([ListBegin] + Cmds(running[..i]), Cmd(running[i]));
        assert [ListBegin] + Cmds(running[..i + 1]) == [ListBegin] + Cmds(running[..i]) + [Cmd(running[i])];
        commandString := commandString + Cmd(running[i]) + "\n";
        i := i + 1;
      }
      assert running[..i] == running;
      LinesTextSnoc([ListBegin] + Cmds(running), ListEnd);
      commandString := commandString + ListEnd + "\n";
    }
  }

  // ---------------------------------------------------------------------------------
  // Idle notifications

  /** `response.lines.map(changed => changed.substring(9))`: the prefix is not checked. */
  function Subsystems(lines: seq<string>): (subsystems: seq<string>)
    ensures |subsystems| == |lines|
  {
    seq(|lines|, i requires 0 <= i < |lines| => Drop(lines[i], 9))
  }

  /** The lines idle answers with, `changed: <subsystem>`, give back the subsystems. */
  lemma SubsystemsOfChangedLines(names: seq<string>)
    ensures Subsystems(seq(|names|, i requires 0 <= i < |names| => "changed: " + names[i])) == names
  {
    var lines := seq(|names|, i requires 0 <= i < |names| => "changed: " + names[i]);
    forall i | 0 <= i < |names|
      ensures Subsystems(lines)[i] == names[i]
    {
      assert lines[i][9..] == names[i];
    }
  }

  /** The events `idleCallback` emits: `changed` with the list, then one `changed-<s>` per
      subsystem, in order. */
  function ChangedEvents(subsystems: seq<string>): (events: seq<Event>)
    ensures |events| == |subsystems| + 1 && events[0] == Changed(subsystems)
    ensures forall i :: 0 <= i < |subsystems| ==> events[i + 1] == ChangedSubsystem(subsystems[i])
  {
    [Changed(subsystems)] + seq(|subsystems|, i requires 0 <= i < |subsystems| => ChangedSubsystem(subsystems[i]))
  }

  // ---------------------------------------------------------------------------------
  // The protocol object

  class MPDProtocol {
    /** Whether `_connection` is set. */
    var connected: bool
    var ready: bool
    var idle: bool
    var queuedRequests: seq<Request>
    var runningRequests: seq<Request>
    var mpdVersion: Option<Version>
    /** The identity the next request's promise gets. */
    var nextId: nat
    /** Every `send`, in order. */
    var sent: seq<string>
    /** Every `emit`, in order. */
    var events: seq<Event>
    /** Every promise settlement, in order. */
    var settlements: seq<Settlement>

    /** The invariant between events: while ready there is always one outstanding batch,
        idling means running exactly the idle request, and every promise handed out is
        either settled once or outstanding once. */
    ghost predicate Valid()
      reads this
    {
      && (!connected ==> !ready && queuedRequests == [] && runningRequests == [])
      && (ready <==> mpdVersion.Some?)
      && (ready ==> connected && |runningRequests| > 0)
      && (!ready ==> runningRequests == [])
      && (idle ==> runningRequests == [IdleRequest])
      && (IdleRequest in runningRequests ==> runningRequests == [IdleRequest])
      && IdleRequest !in queuedRequests
      && Accounted(settlements, runningRequests, queuedRequests, nextId)
    }

    /** The state `disconnect` leaves. */
    predicate Disconnected()
      reads this
    {
      !connected && !ready && !idle && runningRequests == [] && queuedRequests == [] && mpdVersion.None?
    }

    /** `dequeueRequests` has run on queue `q`, starting from a log `sent0`. */
    predicate DispatchedFrom(q: seq<Request>, sent0: seq<string>)
      reads this
    {
      && runningRequests == Batch(q)
      && queuedRequests == []
      && idle == (q == [])
      && sent == sent0 + [CommandString(runningRequests)]
    }

    constructor ()
      ensures Valid() && Disconnected()
      ensures nextId == 0 && sent == [] && events == [] && settlements == []
    {
      connected := false;
      ready := false;
      idle := false;
      queuedRequests := [];
      runningRequests := [];
      mpdVersion := None;
      nextId := 0;
      sent := [];
      events := [];
      settlements := [];
      assert SettledIds([]) + Ids([]) + Ids([]) == [];
    }

    /** `connect`: throws (returns false, changing nothing) when already connected. */
    method Connect() returns (ok: bool)
      requires Valid()
      modifies this
      ensures Valid()
      ensures ok == !old(connected) && connected
      ensures ready == old(ready) && idle == old(idle) && mpdVersion == old(mpdVersion)
      ensures queuedRequests == old(queuedRequests) && runningRequests == old(runningRequests)
      ensures nextId == old(nextId) && sent == old(sent) && events == old(events) && settlements == old(settlements)
    {
      if connected {
        return false;
      }
      connected := true;
      return true;
    }

    /** `sendCommand`/`enqueueRequest`: hands out the promise `id`. Without a connection the
        promise is rejected with `Not connected`; otherwise the command is queued, and if
        the protocol was idling it sends `noidle` once and stops idling. */
    method SendCommand(cmd: string) returns (id: nat)
      requires Valid()
      modifies this
      ensures Valid()
      ensures id == old(nextId) && nextId == id + 1
      ensures !old(connected) ==>
        && settlements == old(settlements) + [Thrown(id, NotConnected)]
        && queuedRequests == old(queuedRequests) && sent == old(sent) && idle == old(idle)
      ensures old(connected) ==>
        && queuedRequests == old(queuedRequests) + [UserRequest(id, cmd)]
        && sent == old(sent) + (if old(idle) then [NoIdle] else [])
        && !idle && settlements == old(settlements)
      ensures connected == old(connected) && ready == old(ready) && mpdVersion == old(mpdVersion)
      ensures runningRequests == old(runningRequests) && events == old(events)
    {
      id := nextId;
      nextId := nextId + 1;
      if !connected {
        AccountThrown(settlements, runningRequests, queuedRequests, id, NotConnected);
        settlements := settlements + [Thrown(id, NotConnected)];
        return;
      }
      AccountEnqueue(settlements, runningRequests, queuedRequests, id, cmd);
      queuedRequests := queuedRequests + [UserRequest(id, cmd)];
      if idle {
        sent := sent + [NoIdle];
        idle := false;
      }
    }

    /** `dequeueRequests`: start the next batch and write it. */
    method DequeueRequests()
      requires runningRequests == []
      modifies this
      ensures DispatchedFrom(old(queuedRequests), old(sent))
      ensures Ids(runningRequests) == Ids(old(queuedRequests))
      ensures connected == old(connected) && ready == old(ready) && mpdVersion == old(mpdVersion)
      ensures nextId == old(nextId) && events == old(events) && settlements == old(settlements)
    {
      if |queuedRequests| > 0 {
        runningRequests := queuedRequests;
        queuedRequests := [];
        idle := false;
      } else {
        runningRequests := [IdleRequest];
        idle := true;
      }
      var commandString := FrameCommands(runningRequests);
      sent := sent + [commandString];
    }

    /** `idleCallback`: stop idling and announce the changed subsystems. */
    method IdleCallback(response: MPDResponse)
      modifies this
      ensures !idle
      ensures events == old(events) + ChangedEvents(Subsystems(response.lines))
      ensures connected == old(connected) && ready == old(ready) && mpdVersion == old(mpdVersion)
      ensures queuedRequests == old(queuedRequests) && runningRequests == old(runningRequests)
      ensures nextId == old(nextId) && sent == old(sent) && settlements == old(settlements)
    {
      idle := false;
      var subsystems := Subsystems(response.lines);
      events := events + [Changed(subsystems)];
      var i := 0;
      while i < |subsystems|
        invariant 0 <= i <= |subsystems|
        invariant events == old(events) + [Changed(subsystems)]
          + seq(i, k requires 0 <= k < i => ChangedSubsystem(subsystems[k]))
        invariant !idle && connected == old(connected) && ready == old(ready) && mpdVersion == old(mpdVersion)
        invariant queuedRequests == old(queuedRequests) && runningRequests == old(runningRequests)
        invariant nextId == old(nextId) && sent == old(sent) && settlements == old(settlements)
      {
        events := events + [ChangedSubsystem(subsystems[i])];
        i := i + 1;
      }
    }

    /** Reject everything in `rs`, in order. */
    method RejectAll(rs: seq<Request>, err: MPDError)
      modifies this
      ensures settlements == old(settlements) + Rejections(rs, err)
      ensures connected == old(connected) && ready == old(ready) && idle == old(idle) && mpdVersion == old(mpdVersion)
      ensures queuedRequests == old(queuedRequests) && runningRequests == old(runningRequests)
      ensures nextId == old(nextId) && sent == old(sent) && events == old(events)
    {
      var i := 0;
      while i < |rs|
        invariant 0 <= i <= |rs|
        invariant settlements == old(settlements) + Rejections(rs[..i], err)
        invariant connected == old(connected) && ready == old(ready) && idle == old(idle) && mpdVersion == old(mpdVersion)
        invariant queuedRequests == old(queuedRequests) && runningRequests == old(runningRequests)
        invariant nextId == old(nextId) && sent == old(sent) && events == old(events)
      {
        RejectionsPrefix(rs, i, err);
        settlements := settlements + Rejection(rs[i], err);
        i := i + 1;
      }
      assert rs[..i] == rs;
    }

    /** `disconnect(err)`: reject every running, then every queued request, and clear the
        state. */
    method Disconnect(err: MPDError)
      requires Valid()
      modifies this
      ensures Valid() && Disconnected()
      ensures settlements == old(settlements) + Rejections(old(runningRequests), err) + Rejections(old(queuedRequests), err)
      ensures nextId == old(nextId) && sent == old(sent) && events == old(events)
    {
      ghost var s0, running, queued := settlements, runningRequests, queuedRequests;
      RejectAll(runningRequests, err);
      RejectAll(queuedRequests, err);
      ready := false;
      idle := false;
      runningRequests := [];
      queuedRequests := [];
      mpdVersion := None;
      connected := false;
      assert settlements == s0 + Rejections(running, err) + Rejections(queued, err);
      AccountDisconnect(s0, running, queued, nextId, err);
    }

    /** A read that the protocol did not expect: report it and disconnect with it. */
    method Unexpected(message: string)
      requires Valid()
      modifies this
      ensures Valid() && Disconnected()
      ensures events == old(events) + [SocketError(UnexpectedPrefix + message)]
      ensures settlements == old(settlements)
        + Rejections(old(runningRequests), MPDError(-1, UnexpectedPrefix + message))
        + Rejections(old(queuedRequests), MPDError(-1, UnexpectedPrefix + message))
      ensures nextId == old(nextId) && sent == old(sent)
    {
      var errorMessage := UnexpectedPrefix + message;
      events := events + [SocketError(errorMessage)];
      Disconnect(MPDError(-1, errorMessage));
    }

    /** The greeting: record the version, resolve `connect`, announce readiness and
        dispatch. A connection has one greeting, since the grouper emits it only first. */
    method ReceiveGreeting(version: Version)
      requires Valid() && connected && !ready
      modifies this
      ensures Valid()
      ensures connected && ready && mpdVersion == Some(version)
      ensures settlements == old(settlements) + [ConnectResolved]
      ensures events == old(events) + [Ready]
      ensures DispatchedFrom(old(queuedRequests), old(sent))
      ensures nextId == old(nextId)
    {
      mpdVersion := Some(version);
      ready := true;
      AccountConnectResolved(settlements, runningRequests, queuedRequests, nextId);
      settlements := settlements + [ConnectResolved];
      events := events + [Ready];
      AccountDispatch(settlements, queuedRequests, nextId);
      DequeueRequests();
    }

    /** A success unit: it settles the oldest running request; once the batch is done the
        next one is dispatched. With nothing running it is unexpected. */
    method ReceiveResponse(response: MPDResponse)
      requires Valid() && connected
      modifies this
      ensures Valid()
      ensures nextId == old(nextId)
      ensures old(runningRequests) == [] ==>
        var message := UnexpectedPrefix + Join(response.lines, "\n");
        && events == old(events) + [SocketError(message)]
        && settlements == old(settlements) + Rejections(old(queuedRequests), MPDError(-1, message))
        && Disconnected() && sent == old(sent)
      ensures old(runningRequests) != [] ==>
        var request := old(runningRequests)[0];
        var rest := old(runningRequests)[1..];
        && connected && ready == old(ready) && mpdVersion == old(mpdVersion)
        && settlements == old(settlements) + Resolution(request, response)
        && events == old(events) + (if request.IdleRequest? then ChangedEvents(Subsystems(response.lines)) else [])
        && (rest != [] ==> runningRequests == rest && queuedRequests == old(queuedRequests)
                           && idle == old(idle) && sent == old(sent))
        && (rest == [] ==> DispatchedFrom(old(queuedRequests), old(sent)))
    {
      if |runningRequests| == 0 {
        Unexpected(Join(response.lines, "\n"));
        return;
      }
      var request := runningRequests[0];
      ghost var s0, running, queued := settlements, runningRequests, queuedRequests;
      runningRequests := runningRequests[1..];
      if request.UserRequest? {
        settlements := settlements + [Resolved(request.id, response)];
      } else {
        IdleCallback(response);
      }
      assert settlements == s0 + Resolution(request, response);
      AccountResolve(s0, running, queued, nextId, response);
      assert IdleRequest in running ==> running == [IdleRequest];
      assert IdleRequest !in runningRequests;
      if |runningRequests| == 0 {
        AccountDispatch(settlements, queuedRequests, nextId);
        DequeueRequests();
      }
    }

    /** A failure unit: it rejects the oldest running request and puts the rest of the
        batch back at the end of the queue, then dispatches. With nothing running it is
        unexpected. */
    method ReceiveError(error: MPDError)
      requires Valid() && connected
      modifies this
      ensures Valid()
      ensures nextId == old(nextId)
      ensures old(runningRequests) == [] ==>
        var message := UnexpectedPrefix + error.errorMessage;
        && events == old(events) + [SocketError(message)]
        && settlements == old(settlements) + Rejections(old(queuedRequests), MPDError(-1, message))
        && Disconnected() && sent == old(sent)
      ensures old(runningRequests) != [] ==>
        && connected && ready == old(ready) && mpdVersion == old(mpdVersion)
        && settlements == old(settlements) + Rejection(old(runningRequests)[0], error)
        && events == old(events)
        && DispatchedFrom(old(queuedRequests) + old(runningRequests)[1..], old(sent))
    {
      if |runningRequests| == 0 {
        Unexpected(error.errorMessage);
        return;
      }
      var request := runningRequests[0];
      ghost var s0, running, queued := settlements, runningRequests, queuedRequests;
      runningRequests := runningRequests[1..];
      settlements := settlements + Rejection(request, error);
      assert IdleRequest in running ==> running == [IdleRequest];
      queuedRequests := queuedRequests + runningRequests;
      runningRequests := [];
      AccountReject(s0, running, queued, nextId, error);
      AccountDispatch(settlements, queuedRequests, nextId);
      DequeueRequests();
    }

    /** The end of the response stream: announce it and disconnect. */
    method ReceiveDone()
      requires Valid() && connected
      modifies this
      ensures Valid() && Disconnected()
      ensures events == old(events) + [SocketEnd]
      ensures settlements == old(settlements)
        + Rejections(old(runningRequests), DisconnectedError) + Rejections(old(queuedRequests), DisconnectedError)
      ensures nextId == old(nextId) && sent == old(sent)
    {
      events := events + [SocketEnd];
      Disconnect(DisconnectedError);
    }

    /** A read that failed with `err` (the `catch` of the read loop): report it and
        disconnect with `Unknown error: <err>`. */
    method ReadFailed(err: string)
      requires Valid() && connected
      modifies this
      ensures Valid() && Disconnected()
      ensures events == old(events) + [SocketError(err)]
      ensures settlements == old(settlements)
        + Rejections(old(runningRequests), MPDError(-1, "Unknown error: " + err))
        + Rejections(old(queuedRequests), MPDError(-1, "Unknown error: " + err))
      ensures nextId == old(nextId) && sent == old(sent)
    {
      events := events + [SocketError(err)];
      Disconnect(MPDError(-1, "Unknown error: " + err));
    }
  }
}
