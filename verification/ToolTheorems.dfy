/** What a client of a comm tool may rely on, and what it may not. */
module ToolTheorems {
  import opened ToolSteps
  import opened ToolInvariant

  // ---------- runs, event by event ----------

  /** The run receives what the filter lets through, and every event of it fits. */
  ghost predicate Proper(t: Tool, events: seq<Event>) {
    AllReceived(t, events) && AllFit(t, events, |events|)
  }

  lemma RunMore(t: Tool, events: seq<Event>, e: Event)
    ensures Run(t, events + [e]) == Step(Run(t, events), e)
    ensures Proper(t, events) && Received(Run(t, events).desk, e) && Fits(Run(t, events), e) ==> Proper(t, events + [e])
  {
    var more := events + [e];
    assert more[..|events|] == events;
    if Proper(t, events) && Received(Run(t, events).desk, e) && Fits(Run(t, events), e) {
      forall n: nat | n < |more| ensures Before(t, more, n) == Run(t, more[..n]) && Received(Before(t, more, n).desk, more[n]) && FitsAt(t, more, n) {
        if n < |events| {
          assert more[..n] == events[..n];
          assert FitsAt(t, events, n);
        }
      }
    }
  }

  /** A run of two events. */
  lemma RunTwo(t: Tool, e1: Event, e2: Event)
    ensures Run(t, [e1, e2]) == Step(Step(t, e1), e2)
  {
    RunMore(t, [], e1);
    RunMore(t, [e1], e2);
    assert [] + [e1] == [e1] && [e1] + [e2] == [e1, e2];
  }

  const CONNECT_ASKED: Event := ControlAsked(Connect, NoErr, NoErr)
  const OPTIONS_DONE: Event := OptionsDone(NoErr, NoErr)

  const CONNECTING: Tool := Tool(
    Desk({Control}, ALL_CHANNELS - {Control}, multiset{Control}, [], {}, NoErr),
    Link(State(true, false, false, false, false, false, false, false, false), 0, 0, NoErr, 0, 0), Connect, true, false)

  const CONNECTED: Tool := Tool(
    Desk({}, ALL_CHANNELS, multiset{Control}, [Reply(Control, NoErr)], {}, NoErr),
    Link(State(false, true, false, false, false, false, false, false, false), 0, 0, NoErr, 0, 0), Connect, true, false)

  lemma RunToConnecting()
    ensures Proper(START, [CONNECT_ASKED]) && Run(START, [CONNECT_ASKED]) == CONNECTING
  {
    RunMore(START, [], CONNECT_ASKED);
    assert [] + [CONNECT_ASKED] == [CONNECT_ASKED];
    assert {} + {Control} == {Control};
  }

  lemma RunToConnected()
    ensures Proper(START, [CONNECT_ASKED, OPTIONS_DONE]) && Run(START, [CONNECT_ASKED, OPTIONS_DONE]) == CONNECTED
  {
    RunToConnecting();
    RunMore(START, [CONNECT_ASKED], OPTIONS_DONE);
    assert [CONNECT_ASKED] + [OPTIONS_DONE] == [CONNECT_ASKED, OPTIONS_DONE];
    assert {Control} - {Control} == {};
    assert ALL_CHANNELS - {Control} + {Control} == ALL_CHANNELS;
  }

  // ---------- requests and replies ----------

  /** Over any run that receives what the filter lets through: on every channel as many requests were
      received as replied to, and one more at most, and that one is pending and keeps others from being
      received. */
  lemma OneRequestAtATime(events: seq<Event>, c: Channel)
    requires AllReceived(START, events)
    ensures var d := Run(START, events).desk;
            && Replied(d.replies, c) <= d.accepted[c] <= Replied(d.replies, c) + 1
            && (d.accepted[c] > Replied(d.replies, c) <==> c in d.pending)
            && (c in d.filter <==> c !in d.pending)
  {
    StartKept();
    RunBooks(START, events);
    assert Kept(Run(START, events).desk, c);
  }

  /** However often the option completion runs, a data request is answered once at most. */
  lemma DataAnsweredOnce(t: Tool, channel: Channel, first: Answering, second: Answering)
    requires channel in t.desk.filter && channel != Kill
    ensures var t' := DataRequest(Asked(t, channel), channel, first, second);
            Replied(t'.desk.replies, channel) == Replied(t.desk.replies, channel)
              + if !t.link.state.connected || t.link.state.releasing || first.With? || second.With? then 1 else 0
  {
    var result := if !t.link.state.connected then NotConnected else if t.link.state.releasing then ReleasingConnection
                  else if first.With? then first.err else if second.With? then second.err else NoErr;
    RepliedMore(t.desk.replies, Reply(channel, result), channel);
  }

  // ---------- aborting under holds ----------

  /** Letting n holds go. */
  function AllowTimes(t: Tool, n: nat, end: Ending): Tool {
    if n == 0 then t else AllowAbort(AllowTimes(t, n - 1, end), end)
  }

  /** While an abort waits, letting holds go changes nothing but their number, until the last. */
  lemma {:induction false} AllowsWait(t: Tool, end: Ending, n: nat)
    requires n < t.link.abortLock
    ensures AllowTimes(t, n, end) == t.(link := t.link.(abortLock := t.link.abortLock - n))
  {
    if n > 0 {
      AllowsWait(t, end, n - 1);
    }
  }

  /** An abort that starts under k holds waits for the k-th of them to be let go, and terminates the
      connection then, once; and with a reason it leaves none of the bits 0xC7. */
  lemma AbortWaitsForHolds(t: Tool, reason: Error, end: Ending, n: nat)
    requires Sound(t.link) && Linked(t.link) && !t.link.state.wantAbort && n <= t.link.abortLock && Ends(end)
    ensures var later := AllowTimes(StartAbort(t, reason, end), n, end);
            && later.link.abortLock == t.link.abortLock - n
            && later.link.terminations == t.link.terminations + (if n == t.link.abortLock then 1 else 0)
            && (later.link.state.wantAbort <==> n < t.link.abortLock)
            && (n == t.link.abortLock ==> Quiet(later.link) && Control !in later.desk.pending)
            && (n == t.link.abortLock && reason != NoErr ==> Terminated(later.link))
  {
    var t1 := t.(link := BeginAbort(t.link, reason));
    AllowAbortKeeps(t1, end);
    var begun := StartAbort(t, reason, end);
    if n > 0 {
      AllowsWait(begun, end, n - 1);
      AllowAbortKeeps(AllowTimes(begun, n - 1, end), end);
    }
  }

  // ---------- closing ----------

  ghost predicate ClosesTool(end: Ending) {
    forall t: Tool {:trigger end(t)} :: t.link.state.closing ==> end(t).closed && !end(t).link.state.closing
  }

  lemma BaseCloses(u: Error)
    ensures ClosesTool(BaseEnding(u))
  {
    forall t: Tool | t.link.state.closing ensures BaseEnding(u)(t).closed && !BaseEnding(u)(t).link.state.closing {
      TerminationCloses(t, u);
    }
  }

  /** A termination closes the tool that is closing. */
  lemma TerminationCloses(t: Tool, u: Error)
    requires t.link.state.closing
    ensures TerminateComplete(t, u).closed && !TerminateComplete(t, u).link.state.closing
  {
    var t1 := EndControl(t.(link := Cleared(t.link)), t.link.errStatus, u);
    assert t1.closed && !t1.link.state.closing;
  }

  /** A request to close waits as an abort does: the tool is closed when the connection is. */
  lemma CloseWaitsForHolds(t: Tool, u: Error, n: nat)
    requires Sound(t.link) && (Linked(t.link) || !t.link.state.wantAbort) && n <= t.link.abortLock && !t.closed
    ensures var later := AllowTimes(CloseMarked(MarkClosing(t), BaseEnding(u)), n, BaseEnding(u));
            && (later.closed <==> !Linked(t.link) || n == t.link.abortLock)
            && (later.closed <==> !later.link.state.closing)
            && (later.closed ==> Control !in later.desk.pending)
  {
    BaseEnds(u);
    BaseCloses(u);
    ClosesUnderHolds(t, BaseEnding(u), n);
  }

  lemma ClosesUnderHolds(t: Tool, end: Ending, n: nat)
    requires Sound(t.link) && (Linked(t.link) || !t.link.state.wantAbort) && n <= t.link.abortLock && !t.closed
    requires Ends(end) && ClosesTool(end)
    ensures var later := AllowTimes(CloseMarked(MarkClosing(t), end), n, end);
            && (later.closed <==> !Linked(t.link) || n == t.link.abortLock)
            && (later.closed <==> !later.link.state.closing)
            && (later.closed ==> Control !in later.desk.pending)
  {
    var after := CloseMarked(MarkClosing(t), end);
    if Linked(t.link) {
      CloseBegins(t, end);
      if n > 0 {
        AllowsWait(after, end, n - 1);
        AllowAbortKeeps(AllowTimes(after, n - 1, end), end);
      }
    } else {
      AllowsFree(after, end, n);
    }
  }

  lemma CloseBegins(t: Tool, end: Ending)
    requires Sound(t.link) && Linked(t.link) && !t.closed && Ends(end) && ClosesTool(end)
    ensures var after := CloseMarked(MarkClosing(t), end);
            && after.link.abortLock == t.link.abortLock
            && (after.closed <==> t.link.abortLock == 0) && (after.closed <==> !after.link.state.closing)
            && (after.closed ==> Control !in after.desk.pending)
            && (!after.closed ==> after.link.state.wantAbort)
  {
    var marked := MarkClosing(t).(link := Because(MarkClosing(t).link, 2));
    if !t.link.state.wantAbort {
      var begun := marked.(link := BeginAbort(marked.link, ConnectionAborted));
      AllowAbortKeeps(begun, end);
      assert CloseMarked(MarkClosing(t), end) == AllowAbort(begun, end);
    }
  }

  lemma {:induction false} AllowsFree(t: Tool, end: Ending, n: nat)
    requires !t.link.state.wantAbort
    ensures AllowTimes(t, n, end) == t.(link := t.link.(abortLock := t.link.abortLock - n))
  {
    if n > 0 {
      AllowsFree(t, end, n - 1);
    }
  }

  // ---------- what termination leaves ----------

  /** An abort that waits has a reason. */
  ghost predicate Reasoned(l: Link) {
    l.state.wantAbort ==> l.errStatus != NoErr
  }

  /** At most one abort is begun, if none waited; and at most one termination comes, under no hold. */
  ghost predicate Paced(l: Link, l': Link) {
    && (l'.aborts == l.aborts || (l'.aborts == l.aborts + 1 && !l.state.wantAbort))
    && (l'.terminations == l.terminations || (l'.terminations == l.terminations + 1 && l'.abortLock == 0))
  }

  /** And if aborts have reasons, a termination leaves none of the bits 0xC7. */
  ghost predicate Cuts(l: Link, l': Link) {
    Paced(l, l') && (Reasoned(l) ==> Reasoned(l') && (l'.terminations != l.terminations ==> Terminated(l')))
  }

  lemma StartAbortCuts(t: Tool, reason: Error, end: Ending)
    requires Ends(end)
    ensures Paced(t.link, StartAbort(t, reason, end).link)
    ensures reason != NoErr ==> Cuts(t.link, StartAbort(t, reason, end).link)
  {
    if !t.link.state.wantAbort && Linked(t.link) {
      AllowAbortKeeps(t.(link := BeginAbort(t.link, reason)), end);
    }
  }

  lemma AbortBecauseCuts(t: Tool, reason: int, end: Ending)
    requires Ends(end)
    ensures Cuts(t.link, AbortBecause(t, reason, end).link)
  {
    StartAbortCuts(t.(link := Because(t.link, reason)), ConnectionAborted, end);
  }

  lemma CloseCuts(t: Tool, end: Ending)
    requires Ends(end)
    ensures Cuts(t.link, CloseMarked(MarkClosing(t), end).link)
  {
    if Linked(t.link) {
      AbortBecauseCuts(MarkClosing(t), 2, end);
    }
  }

  lemma DisconnectCuts(t: Tool, end: Ending)
    requires Ends(end)
    ensures Cuts(t.link, DoDisconnect(t, end).link)
  {
    AbortBecauseCuts(t.(link := t.link.(state := t.link.state.(disconnectReq := true))), 2, end);
  }

  lemma ReleaseCuts(t: Tool, end: Ending)
    requires Ends(end)
    ensures Cuts(t.link, DoRelease(t, end).link)
  {
    StartAbortCuts(t.(link := Because(t.link.(state := t.link.state.(releasing := true)), 3)), ConnectionAborted, end);
  }

  lemma AnswerCuts(t: Tool, l: Link, result: Error)
    requires SameAbort(t.link, l)
    ensures Cuts(t.link, Answer(t.(link := l), Control, result).link)
  {
  }

  /** The requests that begin a connection, bind and unbind terminate nothing. */
  lemma DoConnectCuts(t: Tool, imported: Error, u: Error)
    ensures Cuts(t.link, DoConnect(t, imported, u).link)
  {
    AnswerCuts(t, ConnectLink(Begin(t).link, imported), u);
  }

  lemma DoListenCuts(t: Tool, imported: Error, u: Error)
    ensures Cuts(t.link, DoListen(t, imported, u).link)
  {
    AnswerCuts(t, ListenLink(Begin(t).link, imported), u);
  }

  lemma DoAcceptCuts(t: Tool, imported: Error, u: Error)
    ensures Cuts(t.link, DoAccept(t, imported, u).link)
  {
    AnswerCuts(t, ConnectLink(Unlisten(t.link), imported), u);
  }

  lemma DoBindCuts(t: Tool)
    ensures Cuts(t.link, DoBind(t).link) && Cuts(t.link, DoUnbind(t).link)
  {
  }

  lemma DoControlCuts(t: Tool, op: OpCode, imported: Error, u: Error, end: Ending)
    requires Ends(end)
    ensures Cuts(t.link, DoControl(t, op, imported, u, end).link)
  {
    var t' := t.(opCode := op);
    match op
    case Close => CloseCuts(t', end);
    case Connect => DoConnectCuts(t', imported, u);
    case Listen => DoListenCuts(t', imported, u);
    case Accept => DoAcceptCuts(t', imported, u);
    case Disconnect => DisconnectCuts(t', end);
    case Release => ReleaseCuts(t', end);
    case Bind => DoBindCuts(t');
    case Unbind => DoBindCuts(t');
    case _ =>
  }

  lemma OpenOptionsCut(t: Tool, err: Error, u: Error, end: Ending)
    requires Ends(end)
    ensures Cuts(t.link, OpenOptionsComplete(t, err, u, end).link)
  {
    CloseCuts(Answer(t, Control, if err != NoErr then err else u), end);
  }

  lemma OptionsCut(t: Tool, err: Error, u: Error, end: Ending)
    requires Ends(end)
    ensures Cuts(t.link, OptionsComplete(t, err, u, end).link)
  {
    if t.opCode == Open {
      OpenOptionsCut(t, err, u, end);
    } else {
      OptionsCompleteKeeps(t, err, u, end);
    }
  }

  lemma KillRequestCuts(t: Tool, mask: set<Channel>, get: Killing, put: Killing, end: Ending)
    requires Ends(end)
    ensures Cuts(t.link, KillRequest(t, mask, get, put, end).link)
  {
    var t1 := NameKills(t, mask);
    KillDataLink(t1, Get, get);
    KillDataLink(KillData(t1, Get, get), Put, put);
    var t3 := KillData(KillData(t1, Get, get), Put, put);
    KillControlCuts(t3, end);
    KillGetEventLink(KillControl(t3, end));
  }

  lemma KillDataLink(t: Tool, channel: Channel, how: Killing)
    ensures KillData(t, channel, how).link == t.link
  {
  }

  lemma KillGetEventLink(t: Tool)
    ensures KillGetEvent(t).link == t.link
  {
  }

  lemma KillControlCuts(t: Tool, end: Ending)
    requires Ends(end)
    ensures Cuts(t.link, KillControl(t, end).link)
  {
    AbortBecauseCuts(t, 2, end);
  }

  /** A termination comes under no hold, and for a reason it leaves none of the bits 0xC7. */
  lemma StepCuts(t: Tool, e: Event)
    ensures Paced(t.link, Step(t, e).link)
    ensures (e.Abort? ==> e.reason != NoErr) ==> Cuts(t.link, Step(t, e).link)
  {
    match e
    case ControlAsked(op, imported, u) =>
      BaseEnds(u);
      DoControlCuts(Asked(t, Control), op, imported, u, BaseEnding(u));
    case KillAsked(mask, get, put, u) =>
      BaseEnds(u);
      KillRequestCuts(Asked(t, Kill), mask, get, put, BaseEnding(u));
    case OptionsDone(err, u) =>
      BaseEnds(u);
      OptionsCut(t, err, u, BaseEnding(u));
    case Allow(u) =>
      BaseEnds(u);
      AllowAbortKeeps(t, BaseEnding(u));
    case Abort(reason, u) =>
      BaseEnds(u);
      StartAbortCuts(t, reason, BaseEnding(u));
    case _ =>
  }

  /** Over any run all of whose aborts have a reason, whenever a connection is terminated none of the bits
      0xC7 is left. */
  lemma {:induction false} TerminationsClear(events: seq<Event>, n: nat)
    requires n < |events| && forall e | e in events :: e.Abort? ==> e.reason != NoErr
    ensures var l, l' := Before(START, events, n).link, Before(START, events, n + 1).link;
            Reasoned(l') && (l'.terminations == l.terminations || (l'.terminations == l.terminations + 1 && Terminated(l')))
  {
    if n > 0 {
      TerminationsClear(events, n - 1);
    }
    RunStep(START, events, n);
    StepCuts(Before(START, events, n), events[n]);
  }

  /** Over any run every event of which fits: as many connections were terminated as aborts begun, or one
      less, and then that abort waits under a hold. */
  lemma AbortsTerminate(events: seq<Event>)
    requires AllFit(START, events, |events|)
    ensures var l := Run(START, events).link;
            && l.terminations <= l.aborts <= l.terminations + 1
            && (l.aborts > l.terminations <==> l.state.wantAbort)
            && (l.abortLock == 0 ==> l.aborts == l.terminations)
  {
    RunSound(START, events, |events|);
    assert SoundAt(START, events, |events|);
    assert events[..|events|] == events;
  }

  /** In a step that fits, an abort that waits, or is begun, goes on waiting exactly while there is a hold,
      and terminates the connection exactly when there is none. */
  lemma StepWaits(t: Tool, e: Event)
    requires Sound(t.link) && Fits(t, e)
    ensures WaitsForHolds(t.link, Step(t, e).link)
  {
    StepSound(t, e);
    StepCuts(t, e);
  }

  ghost predicate WaitsForHolds(l: Link, l': Link) {
    var aborting := l.state.wantAbort || l'.aborts > l.aborts;
    && (l'.state.wantAbort <==> aborting && l'.abortLock > 0)
    && (l'.terminations > l.terminations <==> aborting && l'.abortLock == 0)
  }

  /** So over any run every event of which fits, whatever comes between. */
  lemma RunWaits(events: seq<Event>, n: nat)
    requires n < |events| && AllFit(START, events, n + 1)
    ensures WaitsForHolds(Before(START, events, n).link, Before(START, events, n + 1).link)
  {
    RunSound(START, events, n + 1);
    assert SoundAt(START, events, n) && FitsAt(START, events, n);
    RunStep(START, events, n);
    StepWaits(Before(START, events, n), events[n]);
  }

  /** Without a reason a termination can connect the tool: here while a request to connect waits. */
  lemma Reconnected()
    ensures var events := [CONNECT_ASKED, Abort(NoErr, NoErr)];
            && Proper(START, events)
            && var t := Run(START, events);
               t.link.terminations == 1 && t.link.state.connected && t.desk.replies == [Reply(Control, NoErr)]
  {
    RunToConnecting();
    RunMore(START, [CONNECT_ASKED], Abort(NoErr, NoErr));
    assert [CONNECT_ASKED] + [Abort(NoErr, NoErr)] == [CONNECT_ASKED, Abort(NoErr, NoErr)];
  }

  // ---------- what spoils a connection ----------

  /** Options done late: a listen request is turned down while the tool is connected, and then its options
      are done; the tool listens, and sets nothing up. */
  lemma ListeningUnasked()
    ensures var events := [CONNECT_ASKED, OPTIONS_DONE, ControlAsked(Listen, NoErr, NoErr)];
            && Proper(START, events) && AllReceived(START, events + [OPTIONS_DONE])
            && var t := Run(START, events + [OPTIONS_DONE]);
               t.link.state.listenMode && !t.link.state.connecting
  {
    var listen := ControlAsked(Listen, NoErr, NoErr);
    RunToConnected();
    RunMore(START, [CONNECT_ASKED, OPTIONS_DONE], listen);
    assert [CONNECT_ASKED, OPTIONS_DONE] + [listen] == [CONNECT_ASKED, OPTIONS_DONE, listen];
    ReceivedMore([CONNECT_ASKED, OPTIONS_DONE, listen], OPTIONS_DONE);
    RunMore(START, [CONNECT_ASKED, OPTIONS_DONE, listen], OPTIONS_DONE);
  }

  lemma ReceivedMore(events: seq<Event>, e: Event)
    requires AllReceived(START, events) && Received(Run(START, events).desk, e)
    ensures AllReceived(START, events + [e])
  {
    var more := events + [e];
    forall n: nat | n < |more| ensures Received(Before(START, more, n).desk, more[n]) {
      assert more[..n] == if n < |events| then events[..n] else events;
    }
  }
}
