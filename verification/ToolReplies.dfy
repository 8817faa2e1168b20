/** What the replies of a comm tool say: to kill requests, to event requests and over the life of a
    connection. */
module ToolReplies {
  import opened ToolSteps
  import opened ToolInvariant
  import opened ToolTheorems

  // ---------- what a termination does at the desk ----------

  /** What the control request that waits is told when the connection ends for the reason. */
  function EndResult(t: Tool, reason: Error, u: Error): Error {
    if t.link.state.closing || t.opCode == Disconnect || t.opCode == Release then NoErr
    else if t.opCode == Connect || t.opCode == Listen || t.opCode == Accept then u
    else reason
  }

  /** A termination answers the control request and whatever kill request waits for it, and nothing else. */
  lemma TerminateDesk(t: Tool, u: Error)
    ensures TerminateComplete(t, u).desk
         == KillRequestComplete(CompleteRequest(t.desk, Control, EndResult(t, t.link.errStatus, u)), Control, NoErr)
  {
    var t0 := t.(link := Cleared(t.link));
    var t1 := EndControl(t0, t.link.errStatus, u);
    assert t1.desk == CompleteRequest(t.desk, Control, EndResult(t, t.link.errStatus, u));
    KillCompleteKeeps(t1.desk, Control, NoErr);
    assert Announce(EndKill(t1)).desk == EndKill(t1).desk;
  }

  /** An abort that is begun ends the connection at once. */
  predicate EndsAtOnce(l: Link) {
    Linked(l) && !l.state.wantAbort && l.abortLock == 0
  }

  lemma StartAbortDesk(t: Tool, reason: Error, u: Error)
    ensures StartAbort(t, reason, BaseEnding(u)).desk
         == if EndsAtOnce(t.link) then KillRequestComplete(CompleteRequest(t.desk, Control, EndResult(t, reason, u)), Control, NoErr)
            else t.desk
  {
    if EndsAtOnce(t.link) {
      var begun := BeginAbort(t.link, reason);
      var t1 := t.(link := begun.(state := begun.state.(terminating := true)));
      TerminateDesk(t1, u);
      assert StartAbort(t, reason, BaseEnding(u)).desk == TerminateComplete(t1, u).desk;
    }
  }

  lemma StartAbortLink(t: Tool, reason: Error, u: Error)
    requires EndsAtOnce(t.link) && reason != NoErr
    ensures var l := StartAbort(t, reason, BaseEnding(u)).link; Terminated(l) && l.terminations == t.link.terminations + 1
  {
    BaseEnds(u);
    AllowAbortKeeps(t.(link := BeginAbort(t.link, reason)), BaseEnding(u));
  }

  // ---------- replies to kill requests ----------

  function First(e: Error, f: Error): Error {
    if e != NoErr then e else f
  }

  /** The last of the replies. */
  predicate Last(replies: seq<Reply>, r: Reply) {
    |replies| > 0 && replies[|replies| - 1] == r
  }

  /** What becomes of the request on channel c that is to be killed: ends says whether it ends now if it
      is pending, and err with what error. */
  ghost predicate Stage(d: Desk, d': Desk, c: Channel, ends: bool, err: Error) {
    var gone := c in d.toKill && (c in d.pending ==> ends);
    && d'.toKill == (if gone then d.toKill - {c} else d.toKill)
    && d'.killErr == (if gone && c in d.pending then First(d.killErr, err) else d.killErr)
    && (if gone && c in d.pending && d'.toKill == {} && Kill in d.pending
        then Kill !in d'.pending && Last(d'.replies, Reply(Kill, d'.killErr))
        else Kill in d'.pending <==> Kill in d.pending)
    && (c !in d.toKill ==> d' == d)
    && (c == Get ==> (Put in d'.pending <==> Put in d.pending))
    && (c != Control ==> (Control in d'.pending <==> Control in d.pending))
    && (c != GetEvent ==> (GetEvent in d'.pending <==> GetEvent in d.pending))
  }

  /** An abort on the control request's account ends it at once, or it cannot be killed. */
  predicate ControlEnds(l: Link) {
    (!l.state.connecting && !l.state.releasing) || EndsAtOnce(l)
  }

  function ControlError(l: Link): Error {
    if !l.state.connecting && !l.state.releasing then BadCommand else NoErr
  }

  lemma KillDataStage(t: Tool, c: Channel, how: Killing)
    requires c == Get || c == Put
    ensures Stage(t.desk, KillData(t, c, how).desk, c, how.Now?, if how.Now? then how.err else NoErr)
    ensures KillData(t, c, how).link == t.link
  {
  }

  /** What killing the control request does at the desk. */
  function KilledControl(d: Desk, l: Link, result: Error): Desk {
    if Control !in d.toKill then d
    else if Control !in d.pending then d.(toKill := d.toKill - {Control})
    else if !l.state.connecting && !l.state.releasing then KillRequestComplete(d, Control, BadCommand)
    else if EndsAtOnce(l) then KillRequestComplete(CompleteRequest(d, Control, result), Control, NoErr)
    else d
  }

  lemma KillControlDesk(t: Tool, u: Error)
    ensures KillControl(t, BaseEnding(u)).desk
         == KilledControl(t.desk, t.link, EndResult(t.(link := Because(t.link, 2)), ConnectionAborted, u))
  {
    StartAbortDesk(t.(link := Because(t.link, 2)), ConnectionAborted, u);
  }

  lemma KilledControlStage(d: Desk, l: Link, result: Error)
    ensures Stage(d, KilledControl(d, l, result), Control, ControlEnds(l), ControlError(l))
  {
  }

  lemma KillControlStage(t: Tool, u: Error)
    ensures Stage(t.desk, KillControl(t, BaseEnding(u)).desk, Control, ControlEnds(t.link), ControlError(t.link))
  {
    KillControlDesk(t, u);
    KilledControlStage(t.desk, t.link, EndResult(t.(link := Because(t.link, 2)), ConnectionAborted, u));
  }

  lemma KillGetEventStage(t: Tool)
    ensures Stage(t.desk, KillGetEvent(t).desk, GetEvent, true, NoErr)
  {
  }

  /** The requests named by a kill request that are pending all end at once. */
  ghost predicate AllEnd(t: Tool, mask: set<Channel>, get: Killing, put: Killing) {
    && mask <= {Get, Put, Control, GetEvent}
    && (Get in mask && Get in t.desk.pending ==> get.Now?)
    && (Put in mask && Put in t.desk.pending ==> put.Now?)
    && (Control in mask && Control in t.desk.pending ==> ControlEnds(t.link))
  }

  ghost function DataError(t: Tool, mask: set<Channel>, c: Channel, how: Killing): Error {
    if c in mask && c in t.desk.pending && how.Now? then how.err else NoErr
  }

  /** The first error that one of the requests ends with at once. */
  ghost function KillError(t: Tool, mask: set<Channel>, get: Killing, put: Killing): Error {
    First(First(DataError(t, mask, Get, get), DataError(t, mask, Put, put)),
          if Control in mask && Control in t.desk.pending && ControlEnds(t.link) then ControlError(t.link) else NoErr)
  }

  /** The kind that is killed last. */
  function LastNamed(mask: set<Channel>): Channel {
    if GetEvent in mask then GetEvent else if Control in mask then Control else if Put in mask then Put else Get
  }

  /** The four kinds in turn. */
  ghost predicate Stages(t: Tool, d0: Desk, d1: Desk, d2: Desk, d3: Desk, d4: Desk, get: Killing, put: Killing) {
    && Kill in d0.pending && d0.killErr == NoErr
    && (Get in d0.pending <==> Get in t.desk.pending) && (Put in d0.pending <==> Put in t.desk.pending)
    && (Control in d0.pending <==> Control in t.desk.pending) && (GetEvent in d0.pending <==> GetEvent in t.desk.pending)
    && Stage(d0, d1, Get, get.Now?, if get.Now? then get.err else NoErr)
    && Stage(d1, d2, Put, put.Now?, if put.Now? then put.err else NoErr)
    && Stage(d2, d3, Control, ControlEnds(t.link), ControlError(t.link))
    && Stage(d3, d4, GetEvent, true, NoErr)
  }

  lemma StagesLeave(t: Tool, d0: Desk, d1: Desk, d2: Desk, d3: Desk, d4: Desk, get: Killing, put: Killing)
    requires Stages(t, d0, d1, d2, d3, d4, get, put)
    ensures d4.toKill == {} <==> AllEnd(t, d0.toKill, get, put)
    ensures d4.killErr == KillError(t, d0.toKill, get, put)
  {
    assert d4.toKill <= d0.toKill;
    assert forall c | c in d0.toKill :: c in d4.toKill || c == Get || c == Put || c == Control || c == GetEvent;
    assert GetEvent !in d4.toKill;
    assert Get in d4.toKill <==> Get in d0.toKill && Get in t.desk.pending && !get.Now?;
    assert Put in d4.toKill <==> Put in d0.toKill && Put in t.desk.pending && !put.Now?;
    assert Control in d4.toKill <==> Control in d0.toKill && Control in t.desk.pending && !ControlEnds(t.link);
  }

  /** The kill request is answered in the stage of the kind that is killed last, if at all. */
  lemma StagesAnswer(t: Tool, d0: Desk, d1: Desk, d2: Desk, d3: Desk, d4: Desk, get: Killing, put: Killing)
    requires Stages(t, d0, d1, d2, d3, d4, get, put)
    ensures Kill !in d4.pending ==> d4.toKill == {} && d0.toKill != {} && LastNamed(d0.toKill) in t.desk.pending
    ensures d4.toKill == {} && d0.toKill != {} && LastNamed(d0.toKill) in t.desk.pending ==> Kill !in d4.pending
    ensures Kill !in d4.pending ==> Last(d4.replies, Reply(Kill, d4.killErr))
  {
    if d4.toKill == {} {
      StagesLeave(t, d0, d1, d2, d3, d4, get, put);
    }
  }

  lemma KillStages(t: Tool, mask: set<Channel>, get: Killing, put: Killing, u: Error)
    returns (d0: Desk, d1: Desk, d2: Desk, d3: Desk, d4: Desk)
    ensures Stages(t, d0, d1, d2, d3, d4, get, put) && d0.toKill == mask
    ensures KillRequest(Asked(t, Kill), mask, get, put, BaseEnding(u)).desk
         == if d4.toKill == {} then CompleteRequest(d4, Kill, NoErr) else d4
  {
    var t0 := NameKills(Asked(t, Kill), mask);
    var t1 := KillData(t0, Get, get);
    KillDataStage(t0, Get, get);
    var t2 := KillData(t1, Put, put);
    KillDataStage(t1, Put, put);
    var t3 := KillControl(t2, BaseEnding(u));
    KillControlStage(t2, u);
    var t4 := KillGetEvent(t3);
    KillGetEventStage(t3);
    d0, d1, d2, d3, d4 := t0.desk, t1.desk, t2.desk, t3.desk, t4.desk;
  }

  /** A kill request is answered at once exactly when all it names end at once; and then with the first
      error, but without any if the kind that is killed last has no request pending. */
  lemma KillReply(t: Tool, mask: set<Channel>, get: Killing, put: Killing, u: Error)
    ensures var d := Step(t, KillAsked(mask, get, put, u)).desk;
            && d.killErr == KillError(t, mask, get, put)
            && (Kill !in d.pending <==> AllEnd(t, mask, get, put))
            && (Kill !in d.pending <==> d.toKill == {})
            && (AllEnd(t, mask, get, put) ==>
                Last(d.replies, Reply(Kill, if LastNamed(mask) in mask * t.desk.pending then KillError(t, mask, get, put) else NoErr)))
  {
    var d0, d1, d2, d3, d4 := KillStages(t, mask, get, put, u);
    StagesLeave(t, d0, d1, d2, d3, d4, get, put);
    StagesAnswer(t, d0, d1, d2, d3, d4, get, put);
  }

  /** The reply to a kill request hides an error exactly when the requests all end at once, one of them
      with an error, and the kind that is killed last has no request pending. */
  lemma KillErrorLost(t: Tool, mask: set<Channel>, get: Killing, put: Killing, u: Error)
    ensures var d := Step(t, KillAsked(mask, get, put, u)).desk;
            (Kill !in d.pending && d.killErr != NoErr && Last(d.replies, Reply(Kill, NoErr))) <==>
            (AllEnd(t, mask, get, put) && KillError(t, mask, get, put) != NoErr && LastNamed(mask) !in t.desk.pending)
  {
    KillReply(t, mask, get, put, u);
  }

  /** Connected, with a get request that waits for data. */
  const GETTING: Tool := Tool(
    Desk({Get}, ALL_CHANNELS - {Get}, multiset{Control, Get}, [Reply(Control, NoErr)], {}, NoErr), CONNECTED.link, Connect, true, false)

  lemma RunToGetting()
    ensures var events := [CONNECT_ASKED, OPTIONS_DONE, DataAsked(Get, NotYet, NotYet)];
            Proper(START, events) && Run(START, events) == GETTING
  {
    var get := DataAsked(Get, NotYet, NotYet);
    RunToConnected();
    RunMore(START, [CONNECT_ASKED, OPTIONS_DONE], get);
    assert [CONNECT_ASKED, OPTIONS_DONE] + [get] == [CONNECT_ASKED, OPTIONS_DONE, get];
    assert {} + {Get} == {Get};
  }

  lemma GetKillHidden(kill: Event)
    requires kill == KillAsked({Get, Put}, Now(OtherError(7)), Later, NoErr)
    ensures var d := Step(GETTING, kill).desk; d.killErr == OtherError(7) && Last(d.replies, Reply(Kill, NoErr))
  {
    var mask := {Get, Put};
    assert KillError(GETTING, mask, Now(OtherError(7)), Later) == OtherError(7);
    assert AllEnd(GETTING, mask, Now(OtherError(7)), Later);
    KillReply(GETTING, mask, Now(OtherError(7)), Later, NoErr);
  }

  /** So it can go: a get request ends with error 7, no put request is pending, and the kill request that
      names both reports no error. */
  lemma KillErrorHidden()
    ensures var kill := KillAsked({Get, Put}, Now(OtherError(7)), Later, NoErr);
            var events := [CONNECT_ASKED, OPTIONS_DONE, DataAsked(Get, NotYet, NotYet)];
            && Proper(START, events + [kill])
            && var d := Run(START, events + [kill]).desk; d.killErr == OtherError(7) && Last(d.replies, Reply(Kill, NoErr))
  {
    var kill := KillAsked({Get, Put}, Now(OtherError(7)), Later, NoErr);
    RunToGetting();
    RunMore(START, [CONNECT_ASKED, OPTIONS_DONE, DataAsked(Get, NotYet, NotYet)], kill);
    GetKillHidden(kill);
  }

  // ---------- replies to event requests ----------

  /** A request for an event is never answered by an event: when there is one, it is the control request
      that waits which is answered, if there is one; the request for the event goes on waiting. */
  lemma EventAnswersControl(t: Tool)
    ensures var t' := Step(t, EventAsked);
            && GetEvent in t'.desk.pending && !t'.eventReady
            && t'.desk.replies == t.desk.replies + (if t.eventReady && Control in t.desk.pending then [Reply(Control, NoErr)] else [])
            && t'.link == t.link
  {
  }

  /** So it can go: a request to connect is answered while the tool is still connecting. */
  lemma ConnectAnsweredByEvent()
    ensures var events := [CONNECT_ASKED, EventAsked];
            && Proper(START, events)
            && var t := Run(START, events);
               t.desk.replies == [Reply(Control, NoErr)] && t.link.state.connecting && GetEvent in t.desk.pending
  {
    RunToConnecting();
    RunMore(START, [CONNECT_ASKED], EventAsked);
    assert [CONNECT_ASKED] + [EventAsked] == [CONNECT_ASKED, EventAsked];
  }

  /** How many kill requests among the events name requests for events. */
  function EventKills(events: seq<Event>): nat {
    if events == [] then 0
    else EventKills(events[..|events| - 1]) + match events[|events| - 1]
         case KillAsked(mask, _, _, _) => if GetEvent in mask then 1 else 0
         case _ => 0
  }

  lemma EventKillsMore(events: seq<Event>, n: nat)
    requires n < |events|
    ensures EventKills(events[..n + 1])
         == EventKills(events[..n]) + if events[n].KillAsked? && GetEvent in events[n].mask then 1 else 0
  {
    assert events[..n + 1][..n] == events[..n];
  }

  lemma NextEventReplies(events: seq<Event>, n: nat)
    requires AllReceived(START, events) && n < |events| && !(events[n].DataDone? && events[n].channel == GetEvent)
    ensures Replied(Before(START, events, n + 1).desk.replies, GetEvent)
         <= Replied(Before(START, events, n).desk.replies, GetEvent)
            + if events[n].KillAsked? && GetEvent in events[n].mask then 1 else 0
  {
    StartKept();
    RunBooksTo(START, events, n);
    StepBooks(Before(START, events, n), events[n]);
    RunStep(START, events, n);
  }

  /** Over any run in which the tool does not answer requests for events of its own accord, they are
      answered by kill requests only: there are no more replies to them than kill requests that name
      them. */
  lemma {:induction false} EventsAreKilled(events: seq<Event>, n: nat)
    requires AllReceived(START, events) && n <= |events|
    requires forall e | e in events :: !(e.DataDone? && e.channel == GetEvent)
    ensures Replied(Before(START, events, n).desk.replies, GetEvent) <= EventKills(events[..n])
  {
    if n > 0 {
      EventsAreKilled(events, n - 1);
      EventKillsMore(events, n - 1);
      var last := events[n - 1];
      assert last in events;
      NextEventReplies(events, n - 1);
    }
  }

  // ---------- the life of a connection ----------

  /** A request to connect is answered when its options are done, and the tool is connected. */
  lemma Connects(t: Tool, u: Error)
    requires !Linked(t.link) && Control in t.desk.filter
    ensures var t1 := Step(t, ControlAsked(Connect, NoErr, u));
            && t1.link.state.connecting && Control in t1.desk.pending && t1.desk.replies == t.desk.replies
            && var t2 := Step(t1, OptionsDone(NoErr, u));
               && t2.link.state.connected && !t2.link.state.connecting && Control in t2.desk.filter
               && t2.desk.replies == t.desk.replies + [Reply(Control, u)]
  {
  }

  /** A request to disconnect ends a connection that nothing holds, and is answered without error; after
      that there is nothing to disconnect. */
  lemma Disconnects(t: Tool, u: Error)
    requires Books(t.desk) && EndsAtOnce(t.link) && Control in t.desk.filter
    requires t.desk.toKill == {} && Kill !in t.desk.pending && !t.link.state.closing
    ensures var t1 := Step(t, ControlAsked(Disconnect, NoErr, u));
            && Terminated(t1.link) && t1.link.terminations == t.link.terminations + 1
            && t1.desk.replies == t.desk.replies + [Reply(Control, NoErr)]
            && var t2 := Step(t1, ControlAsked(Disconnect, NoErr, u));
               t2.desk.replies == t1.desk.replies + [Reply(Control, NotConnected)] && t2.link.terminations == t1.link.terminations
  {
    DisconnectEnds(t, u);
    var t1 := Step(t, ControlAsked(Disconnect, NoErr, u));
    DisconnectRefused(t1, u);
  }

  lemma DisconnectEnds(t: Tool, u: Error)
    requires EndsAtOnce(t.link) && Control in t.desk.filter
    requires t.desk.toKill == {} && Kill !in t.desk.pending && !t.link.state.closing
    ensures var t1 := Step(t, ControlAsked(Disconnect, NoErr, u));
            && Terminated(t1.link) && t1.link.terminations == t.link.terminations + 1
            && t1.desk.replies == t.desk.replies + [Reply(Control, NoErr)]
  {
    var t0 := Asked(t, Control).(opCode := Disconnect);
    var l := Because(t0.link.(state := t0.link.state.(disconnectReq := true)), 2);
    StartAbortLink(t0.(link := l), ConnectionAborted, u);
    StartAbortDesk(t0.(link := l), ConnectionAborted, u);
    assert Step(t, ControlAsked(Disconnect, NoErr, u)) == StartAbort(t0.(link := l), ConnectionAborted, BaseEnding(u));
    NoneKilled(CompleteRequest(t0.desk, Control, NoErr));
  }

  lemma NoneKilled(d: Desk)
    requires d.toKill == {} && Kill !in d.pending
    ensures KillRequestComplete(d, Control, NoErr).replies == d.replies
  {
  }

  lemma DisconnectRefused(t: Tool, u: Error)
    requires !Linked(t.link)
    ensures var t' := Step(t, ControlAsked(Disconnect, NoErr, u));
            t'.desk.replies == t.desk.replies + [Reply(Control, NotConnected)] && t'.link.terminations == t.link.terminations
  {
  }

  // ---------- holds that a new connection forgets ----------

  /** The state after a connection was aborted under a hold, and its options failed then. */
  const LEFT_OVER: Tool := Tool(
    Desk({}, ALL_CHANNELS, multiset{Control}, [Reply(Control, OtherError(1))], {}, NoErr),
    Link(State(false, false, true, false, false, false, false, false, false), 0, 1, ConnectionAborted, 1, 0), Connect, true, false)

  lemma RunToWaiting()
    ensures var events := [CONNECT_ASKED, Hold, Abort(ConnectionAborted, NoErr)];
            Proper(START, events) && Run(START, events) == Step(Step(CONNECTING, Hold), Abort(ConnectionAborted, NoErr))
  {
    var abort := Abort(ConnectionAborted, NoErr);
    RunToConnecting();
    RunMore(START, [CONNECT_ASKED], Hold);
    assert [CONNECT_ASKED] + [Hold] == [CONNECT_ASKED, Hold];
    RunMore(START, [CONNECT_ASKED, Hold], abort);
    assert [CONNECT_ASKED, Hold] + [abort] == [CONNECT_ASKED, Hold, abort];
  }

  lemma RunToLeftOver()
    ensures var events := [CONNECT_ASKED, Hold, Abort(ConnectionAborted, NoErr), OptionsDone(OtherError(1), OtherError(1))];
            Proper(START, events) && Run(START, events) == LEFT_OVER
  {
    var abort, done := Abort(ConnectionAborted, NoErr), OptionsDone(OtherError(1), OtherError(1));
    RunToWaiting();
    RunMore(START, [CONNECT_ASKED, Hold, abort], done);
    assert [CONNECT_ASKED, Hold, abort] + [done] == [CONNECT_ASKED, Hold, abort, done];
    LeavesOver();
  }

  lemma LeavesOver()
    ensures Step(Step(Step(CONNECTING, Hold), Abort(ConnectionAborted, NoErr)), OptionsDone(OtherError(1), OtherError(1))) == LEFT_OVER
  {
    assert {Control} - {Control} == {};
    assert ALL_CHANNELS - {Control} + {Control} == ALL_CHANNELS;
  }

  /** The connection that is begun then forgets the hold and keeps the abort: it is connected, and the
      request to disconnect it is not answered. */
  lemma AbortForgotten()
    ensures !Fits(LEFT_OVER, CONNECT_ASKED)
    ensures var t := Run(LEFT_OVER, [CONNECT_ASKED, OPTIONS_DONE, ControlAsked(Disconnect, NoErr, NoErr)]);
            && t.link.state.connected && t.link.state.wantAbort && t.link.abortLock == 0
            && t.link.terminations == 0 && Control in t.desk.pending
  {
    var disconnect := ControlAsked(Disconnect, NoErr, NoErr);
    RunTwo(LEFT_OVER, CONNECT_ASKED, OPTIONS_DONE);
    RunMore(LEFT_OVER, [CONNECT_ASKED, OPTIONS_DONE], disconnect);
    assert [CONNECT_ASKED, OPTIONS_DONE] + [disconnect] == [CONNECT_ASKED, OPTIONS_DONE, disconnect];
  }
}
