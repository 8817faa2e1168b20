/** What every step of a comm tool keeps. */
module ToolInvariant {
  import opened ToolSteps

  function Replied(replies: seq<Reply>, c: Channel): nat {
    if replies == [] then 0 else Replied(replies[..|replies| - 1], c) + if replies[|replies| - 1].channel == c then 1 else 0
  }

  lemma RepliedMore(replies: seq<Reply>, r: Reply, c: Channel)
    ensures Replied(replies + [r], c) == Replied(replies, c) + if r.channel == c then 1 else 0
  {
    assert (replies + [r])[..|replies|] == replies;
  }

  // ---------- the desk ----------

  /** The channel is open for a request exactly when none is pending on it; and every request received
      on it was replied to, or is pending. */
  ghost predicate Kept(d: Desk, c: Channel) {
    && (c in d.filter <==> c !in d.pending)
    && d.accepted[c] == Replied(d.replies, c) + if c in d.pending then 1 else 0
  }

  ghost predicate Books(d: Desk) {
    forall c: Channel {:trigger Kept(d, c)} :: Kept(d, c)
  }

  /** Something is to be killed only while a kill request is pending. */
  ghost predicate KillKnown(d: Desk) {
    d.toKill != {} ==> Kill in d.pending
  }

  ghost predicate KillAwaited(d: Desk) {
    Kill in d.pending <==> d.toKill != {}
  }

  /** No request for an event is received, answered or killed. */
  ghost predicate EventsSame(d: Desk, d': Desk) {
    && Replied(d'.replies, GetEvent) == Replied(d.replies, GetEvent)
    && (GetEvent in d'.pending <==> GetEvent in d.pending) && (GetEvent in d'.toKill <==> GetEvent in d.toKill)
  }

  /** Whatever is right at the desk stays right, and requests for events are left alone. */
  ghost predicate Serves(d: Desk, d': Desk) {
    && (Books(d) ==> Books(d')) && (KillKnown(d) ==> KillKnown(d')) && (KillAwaited(d) ==> KillAwaited(d'))
    && EventsSame(d, d')
  }

  lemma CompleteKeeps(d: Desk, channel: Channel, result: Error)
    ensures Books(d) ==> Books(CompleteRequest(d, channel, result))
    ensures channel != Kill && KillKnown(d) ==> KillKnown(CompleteRequest(d, channel, result))
    ensures channel != Kill && KillAwaited(d) ==> KillAwaited(CompleteRequest(d, channel, result))
    ensures channel != GetEvent ==> EventsSame(d, CompleteRequest(d, channel, result))
    ensures Replied(CompleteRequest(d, channel, result).replies, channel)
         == Replied(d.replies, channel) + if channel in d.pending then 1 else 0
    ensures channel !in CompleteRequest(d, channel, result).pending
  {
    var d' := CompleteRequest(d, channel, result);
    RepliedMore(d.replies, Reply(channel, result), channel);
    RepliedMore(d.replies, Reply(channel, result), GetEvent);
    if Books(d) {
      forall c: Channel ensures Kept(d', c) {
        assert Kept(d, c);
        RepliedMore(d.replies, Reply(channel, result), c);
      }
    }
  }

  /** Desks that differ in what is to be killed only. */
  lemma SameBooks(d: Desk, toKill: set<Channel>, killErr: Error)
    ensures Books(d) ==> Books(d.(toKill := toKill, killErr := killErr))
  {
    if Books(d) {
      forall c: Channel ensures Kept(d.(toKill := toKill, killErr := killErr), c) {
        assert Kept(d, c);
      }
    }
  }

  /** Whatever is killed last answers the kill request. */
  lemma KillCompleteKeeps(d: Desk, channel: Channel, result: Error)
    ensures channel != GetEvent ==> Serves(d, KillRequestComplete(d, channel, result))
    ensures Books(d) ==> Books(KillRequestComplete(d, channel, result))
    ensures Replied(KillRequestComplete(d, channel, result).replies, GetEvent) == Replied(d.replies, GetEvent)
    ensures KillKnown(d) ==> KillAwaited(KillRequestComplete(d, channel, result))
    ensures Control !in d.pending ==> Control !in KillRequestComplete(d, channel, result).pending
  {
    var toKill, killErr := d.toKill - {channel}, if result != NoErr && d.killErr == NoErr then result else d.killErr;
    SameBooks(d, toKill, killErr);
    CompleteKeeps(d.(toKill := toKill, killErr := killErr), Kill, killErr);
  }

  lemma ReceiveKeeps(d: Desk, channel: Channel)
    requires Books(d) && channel in d.filter
    ensures Books(Receive(d, channel))
    ensures channel != Kill && KillAwaited(d) ==> KillAwaited(Receive(d, channel))
    ensures channel != GetEvent ==> EventsSame(d, Receive(d, channel))
  {
    assert Kept(d, channel);
    forall c: Channel ensures Kept(Receive(d, channel), c) {
      assert Kept(d, c);
    }
  }

  // ---------- the connection ----------

  /** The connection is being set up or is there, not both; one listens only while setting up; an abort
      that waits has a hold to wait for; and every abort terminates the connection once, or waits. */
  ghost predicate Sound(l: Link) {
    && !(l.state.connecting && l.state.connected)
    && (l.state.listenMode ==> l.state.connecting)
    && (l.state.wantAbort ==> l.abortLock >= 1)
    && l.abortLock >= 0
    && !l.state.terminating
    && l.aborts == l.terminations + if l.state.wantAbort then 1 else 0
  }

  /** None of the bits 0xC7 but for Connected. */
  ghost predicate Quiet(l: Link) {
    !l.state.connecting && !l.state.wantAbort && !l.state.listenMode && !l.state.terminating
  }

  /** None of the bits 0xC7. */
  ghost predicate Terminated(l: Link) {
    Quiet(l) && !l.state.connected
  }

  /** A request to connect or listen that is pending is what sets the connection up. */
  ghost predicate Waits(t: Tool) {
    Control in t.desk.pending ==>
      && (t.opCode == Connect || t.opCode == Listen ==> t.link.state.connecting)
      && (t.opCode == Connect ==> !t.link.state.listenMode)
  }

  ghost predicate Invariant(t: Tool) {
    Books(t.desk) && KillAwaited(t.desk) && Sound(t.link) && Waits(t)
  }

  // ---------- termination ----------

  /** What the ends of termination leave alone. */
  ghost predicate SameCounts(l: Link, l': Link) {
    l'.abortLock == l.abortLock && l'.errStatus == l.errStatus && l'.aborts == l.aborts && l'.terminations == l.terminations
  }

  /** A termination answers the control request that waits, and leaves the connection quiet, and ended if
      there was a reason to. */
  ghost predicate EndsWell(t: Tool, t': Tool) {
    && Serves(t.desk, t'.desk) && Control !in t'.desk.pending && t'.opCode == t.opCode
    && Quiet(t'.link) && SameCounts(Cleared(t.link), t'.link)
    && (t.link.errStatus != NoErr ==> Terminated(t'.link))
  }

  lemma EndedLinkKeeps(op: OpCode, l: Link, err: Error)
    requires Terminated(l)
    ensures Quiet(EndedLink(op, l, err)) && SameCounts(l, EndedLink(op, l, err))
    ensures Terminated(EndedLink(op, l, err)) <==> !(err == NoErr && (op == Connect || op == Accept))
  {
  }

  lemma EndControlAnswers(t: Tool, err: Error, u: Error)
    ensures var t' := EndControl(t, err, u); Serves(t.desk, t'.desk) && Control !in t'.desk.pending && t'.opCode == t.opCode
    ensures EndControl(t, err, u).link
         == if t.link.state.closing then t.link.(state := t.link.state.(closing := false))
            else if Control in t.desk.pending then EndedLink(t.opCode, t.link, err)
            else t.link
  {
    CompleteKeeps(t.desk, Control, if t.link.state.closing then NoErr else EndedReply(t.opCode, err, u));
  }

  /** A request to connect or accept waits, and it is not the tool that closes. */
  ghost predicate Reconnects(t: Tool) {
    !t.link.state.closing && Control in t.desk.pending && (t.opCode == Connect || t.opCode == Accept)
  }

  lemma EndControlKeeps(t: Tool, err: Error, u: Error)
    requires Terminated(t.link)
    ensures var l := EndControl(t, err, u).link;
            Quiet(l) && SameCounts(t.link, l) && (Terminated(l) <==> !(err == NoErr && Reconnects(t)))
  {
    EndControlAnswers(t, err, u);
    EndedLinkKeeps(t.opCode, t.link, err);
  }

  /** terminateComplete clears the bits 0xC7 unless it is run without a reason while a request to
      connect or accept waits: then the tool is connected again. */
  lemma TerminateKeeps(t: Tool, u: Error)
    ensures EndsWell(t, TerminateComplete(t, u))
    ensures Terminated(TerminateComplete(t, u).link) <==> !(t.link.errStatus == NoErr && Reconnects(t))
  {
    var t0 := t.(link := Cleared(t.link));
    EndControlAnswers(t0, t.link.errStatus, u);
    EndControlKeeps(t0, t.link.errStatus, u);
    var t1 := EndControl(t0, t.link.errStatus, u);
    KillCompleteKeeps(t1.desk, Control, NoErr);
    var t2 := EndKill(t1);
    assert Announce(t2).desk == t2.desk && Announce(t2).link == t2.link;
  }

  ghost predicate Ends(end: Ending) {
    forall t: Tool {:trigger end(t)} :: EndsWell(t, end(t))
  }

  lemma BaseEnds(u: Error)
    ensures Ends(BaseEnding(u))
  {
    forall t: Tool ensures EndsWell(t, BaseEnding(u)(t)) {
      TerminateKeeps(t, u);
    }
  }

  // ---------- aborting ----------

  /** The step does its work at the desk, leaves the connection sound, and terminates it only by
      answering the control request. */
  ghost predicate Goes(t: Tool, t': Tool) {
    && Serves(t.desk, t'.desk)
    && (Sound(t.link) ==> Sound(t'.link))
    && (Sound(t.link) && Waits(t) ==> Waits(t'))
  }

  /** Only the last hold lets an abort that waits terminate the connection; and letting go of a hold is
      sound exactly when there is one. */
  lemma AllowAbortKeeps(t: Tool, end: Ending)
    requires Ends(end)
    ensures var t' := AllowAbort(t, end);
            && Serves(t.desk, t'.desk) && (Waits(t) ==> Waits(t'))
            && (Sound(t.link) ==> (Sound(t'.link) <==> t.link.abortLock >= 1))
            && t'.link.abortLock == t.link.abortLock - 1
            && (if t.link.state.wantAbort && t.link.abortLock == 1
                then t'.link.terminations == t.link.terminations + 1 && Quiet(t'.link) && Control !in t'.desk.pending
                     && (t.link.errStatus != NoErr ==> Terminated(t'.link))
                else t'.link == t.link.(abortLock := t.link.abortLock - 1) && t'.desk == t.desk)
  {
  }

  lemma StartAbortKeeps(t: Tool, reason: Error, end: Ending)
    requires Ends(end)
    ensures Goes(t, StartAbort(t, reason, end))
  {
    if !t.link.state.wantAbort && Linked(t.link) {
      AllowAbortKeeps(t.(link := BeginAbort(t.link, reason)), end);
    }
  }

  lemma AbortBecauseKeeps(t: Tool, reason: int, end: Ending)
    requires Ends(end)
    ensures Goes(t, AbortBecause(t, reason, end))
  {
    StartAbortKeeps(t.(link := Because(t.link, reason)), ConnectionAborted, end);
  }

  // ---------- the control channel ----------

  lemma AnswerKeeps(t: Tool, channel: Channel, result: Error)
    requires channel != Kill && channel != GetEvent
    ensures Goes(t, Answer(t, channel, result)) && channel !in Answer(t, channel, result).desk.pending
  {
    CompleteKeeps(t.desk, channel, result);
  }

  /** The control request is answered, and the connection is as told. */
  lemma AnsweredKeeps(t: Tool, l: Link, result: Error)
    requires Sound(t.link) ==> Sound(l)
    ensures Goes(t, Answer(t.(link := l), Control, result))
  {
    CompleteKeeps(t.desk, Control, result);
  }

  lemma CloseKeeps(t: Tool, end: Ending)
    requires Ends(end)
    ensures Goes(t, CloseMarked(MarkClosing(t), end))
  {
    var t' := MarkClosing(t);
    if Linked(t'.link) {
      AbortBecauseKeeps(t', 2, end);
    } else {
      CompleteKeeps(t.desk, Control, NoErr);
    }
  }

  /** Beginning a connection is sound exactly when no abort waits that the connection before it has left
      over: for its holds are forgotten. */
  lemma ConnectKeeps(t: Tool, imported: Error, u: Error)
    ensures Serves(t.desk, DoConnect(t, imported, u).desk)
    ensures Sound(t.link) ==> (Sound(DoConnect(t, imported, u).link) <==> Linked(t.link) || !t.link.state.wantAbort)
    ensures Sound(t.link) && t.opCode == Connect ==> Waits(DoConnect(t, imported, u))
  {
    CompleteKeeps(t.desk, Control, if Linked(t.link) then AlreadyConnected else u);
  }

  lemma ListenKeeps(t: Tool, imported: Error, u: Error)
    ensures Serves(t.desk, DoListen(t, imported, u).desk)
    ensures Sound(t.link) ==> (Sound(DoListen(t, imported, u).link) <==> Linked(t.link) || !t.link.state.wantAbort)
    ensures Sound(t.link) && t.opCode == Listen ==> Waits(DoListen(t, imported, u))
  {
    CompleteKeeps(t.desk, Control, if Linked(t.link) then AlreadyConnected else u);
  }

  lemma DoAcceptKeeps(t: Tool, imported: Error, u: Error)
    requires t.opCode == Accept
    ensures Goes(t, DoAccept(t, imported, u))
  {
    AnswerKeeps(t, Control, NotConnected);
    AnsweredKeeps(t, ConnectLink(Unlisten(t.link), imported), u);
  }

  lemma DoDisconnectKeeps(t: Tool, end: Ending)
    requires t.opCode == Disconnect && Ends(end)
    ensures Goes(t, DoDisconnect(t, end))
  {
    AnsweredKeeps(t, t.link.(state := t.link.state.(disconnectReq := false)), NotConnected);
    AbortBecauseKeeps(t.(link := t.link.(state := t.link.state.(disconnectReq := true))), 2, end);
  }

  lemma DoReleaseKeeps(t: Tool, end: Ending)
    requires t.opCode == Release && Ends(end)
    ensures Goes(t, DoRelease(t, end))
  {
    if Linked(t.link) {
      var t' := t.(link := Because(t.link.(state := t.link.state.(releasing := true)), 3));
      StartAbortKeeps(t', ConnectionAborted, end);
      assert DoRelease(t, end) == ReleaseStart(t', end);
    } else {
      AnswerKeeps(t, Control, NotConnected);
    }
  }

  lemma DoBindKeeps(t: Tool)
    ensures Goes(t, DoBind(t)) && Goes(t, DoUnbind(t))
  {
    AnswerKeeps(t, Control, AlreadyConnected);
    AnswerKeeps(t, Control, AlreadyBound);
    var result := if Linked(t.link) then AlreadyConnected else NoErr;
    AnsweredKeeps(t, UnbindLink(t.link, result), result);
  }

  /** A connection is begun only when no abort waits. */
  ghost predicate MayBegin(l: Link, op: OpCode) {
    (op == Connect || op == Listen) && !Linked(l) ==> !l.state.wantAbort
  }

  lemma DoControlKeeps(t: Tool, op: OpCode, imported: Error, u: Error, end: Ending)
    requires Ends(end)
    ensures var t' := DoControl(t, op, imported, u, end);
            && Serves(t.desk, t'.desk)
            && (Sound(t.link) ==> (Sound(t'.link) <==> MayBegin(t.link, op)) && Waits(t'))
  {
    var t' := t.(opCode := op);
    match op
    case Close => CloseKeeps(t', end);
    case Connect => ConnectKeeps(t', imported, u);
    case Listen => ListenKeeps(t', imported, u);
    case Accept => DoAcceptKeeps(t', imported, u);
    case Disconnect => DoDisconnectKeeps(t', end);
    case Release => DoReleaseKeeps(t', end);
    case Bind => DoBindKeeps(t');
    case Unbind => DoBindKeeps(t');
    case OtherOp(_) => AnswerKeeps(t', Control, BadCommand);
    case _ =>
  }

  /** Options that are done keep the connection sound exactly when they do not make a tool listen that is
      setting nothing up, or connect one that listens. */
  ghost predicate Fitting(op: OpCode, l: Link, err: Error) {
    !(op == Listen && err == NoErr && !l.state.connecting) && !(op == Connect && l.state.listenMode)
  }

  lemma OpenOptionsKeeps(t: Tool, err: Error, u: Error, end: Ending)
    requires Ends(end)
    ensures Goes(t, OpenOptionsComplete(t, err, u, end))
  {
    var result := if err != NoErr then err else u;
    AnswerKeeps(t, Control, result);
    CloseKeeps(Answer(t, Control, result), end);
  }

  /** The abort that waits, if one does, goes on waiting. */
  ghost predicate SameAbort(l: Link, l': Link) {
    l'.terminations == l.terminations && l'.aborts == l.aborts && l'.state.wantAbort == l.state.wantAbort && l'.errStatus == l.errStatus
  }

  ghost predicate OptionsGo(t: Tool, err: Error, t': Tool) {
    && (t.opCode != Open ==> SameAbort(t.link, t'.link))
    && Serves(t.desk, t'.desk) && (Waits(t) && Sound(t.link) ==> Waits(t'))
    && (Sound(t.link) ==> (Sound(t'.link) <==> Fitting(t.opCode, t.link, err)))
  }

  lemma OptionsLinkKeeps(op: OpCode, l: Link, err: Error, u: Error)
    ensures SameAbort(l, OptionsLink(op, l, err, u))
    ensures Sound(l) ==> (Sound(OptionsLink(op, l, err, u)) <==> Fitting(op, l, err))
  {
  }

  lemma OptionsCompleteKeeps(t: Tool, err: Error, u: Error, end: Ending)
    requires Ends(end)
    ensures OptionsGo(t, err, OptionsComplete(t, err, u, end))
  {
    if t.opCode == Open {
      OpenOptionsKeeps(t, err, u, end);
    } else if AwaitsOptions(t.opCode) {
      OptionsLinkKeeps(t.opCode, t.link, err, u);
      CompleteKeeps(t.desk, Control, u);
    }
  }

  // ---------- the other channels ----------

  lemma MayAnswerKeeps(t: Tool, channel: DataChannel, a: Answering)
    ensures Goes(t, MayAnswer(t, channel, a))
  {
    if a.With? {
      AnswerKeeps(t, channel, a.err);
    }
  }

  lemma DataRequestKeeps(t: Tool, channel: DataChannel, first: Answering, second: Answering)
    ensures Goes(t, DataRequest(t, channel, first, second))
  {
    AnswerKeeps(t, channel, NotConnected);
    AnswerKeeps(t, channel, ReleasingConnection);
    MayAnswerKeeps(t, channel, first);
    MayAnswerKeeps(MayAnswer(t, channel, first), channel, second);
  }

  /** What holds in the middle of a kill request. */
  ghost predicate Kills(t: Tool, t': Tool) {
    && (Books(t.desk) ==> Books(t'.desk)) && (KillKnown(t.desk) ==> KillKnown(t'.desk))
    && EventsSame(t.desk, t'.desk)
    && (Sound(t.link) ==> Sound(t'.link)) && (Sound(t.link) && Waits(t) ==> Waits(t'))
  }

  lemma KilledKeeps(t: Tool, channel: Channel, err: Error)
    requires channel != GetEvent
    ensures Goes(t, t.(desk := KillRequestComplete(t.desk, channel, err)))
  {
    KillCompleteKeeps(t.desk, channel, err);
  }

  lemma KillNowKeeps(d: Desk, channel: Channel, err: Error)
    requires channel != Kill
    ensures var d' := KillRequestComplete(CompleteRequest(d, channel, RequestCanceled), channel, err);
            && (Books(d) ==> Books(d')) && (KillKnown(d) ==> KillKnown(d')) && (channel != GetEvent ==> EventsSame(d, d'))
            && (channel == GetEvent ==>
                Replied(d'.replies, GetEvent) == Replied(d.replies, GetEvent) + if GetEvent in d.pending then 1 else 0)
  {
    CompleteKeeps(d, channel, RequestCanceled);
    KillCompleteKeeps(CompleteRequest(d, channel, RequestCanceled), channel, err);
  }

  lemma KillDeskKeeps(d: Desk, channel: Channel, how: Killing)
    requires channel != Kill
    ensures var d' := KillDesk(d, channel, how);
            && (Books(d) ==> Books(d')) && (KillKnown(d) ==> KillKnown(d')) && (channel != GetEvent ==> EventsSame(d, d'))
            && (channel == GetEvent && how.Now? ==>
                Replied(d'.replies, GetEvent) == Replied(d.replies, GetEvent) + if GetEvent in d.toKill && GetEvent in d.pending then 1 else 0)
  {
    if channel in d.toKill {
      if channel !in d.pending {
        SameBooks(d, d.toKill - {channel}, d.killErr);
      } else if how.Now? {
        KillNowKeeps(d, channel, how.err);
      }
    }
  }

  lemma KillDataKeeps(t: Tool, channel: DataChannel, how: Killing)
    ensures Kills(t, KillData(t, channel, how))
  {
    KillDeskKeeps(t.desk, channel, how);
    KillPending(t.desk, channel, how);
  }

  lemma KillPending(d: Desk, channel: Channel, how: Killing)
    requires channel != Control
    ensures Control in KillDesk(d, channel, how).pending <==> Control in d.pending
  {
  }

  lemma KillControlKeeps(t: Tool, end: Ending)
    requires Ends(end)
    ensures Kills(t, KillControl(t, end))
  {
    SameBooks(t.desk, t.desk.toKill - {Control}, t.desk.killErr);
    KilledKeeps(t, Control, BadCommand);
    AbortBecauseKeeps(t, 2, end);
  }

  lemma KillGetEventKeeps(t: Tool)
    ensures var t' := KillGetEvent(t);
            && (Books(t.desk) ==> Books(t'.desk)) && (KillKnown(t.desk) ==> KillKnown(t'.desk))
            && t'.link == t.link && (Waits(t) ==> Waits(t'))
            && Replied(t'.desk.replies, GetEvent)
               == Replied(t.desk.replies, GetEvent) + if GetEvent in t.desk.toKill && GetEvent in t.desk.pending then 1 else 0
  {
    KillDeskKeeps(t.desk, GetEvent, Now(NoErr));
    KillPending(t.desk, GetEvent, Now(NoErr));
  }

  /** Whatever is to be killed, and however it ends, the kill request waits exactly while something is
      left; and the request for an event that it names is answered. */
  lemma KillRequestKeeps(t: Tool, mask: set<Channel>, get: Killing, put: Killing, end: Ending)
    requires Kill in t.desk.pending && Ends(end)
    ensures var t' := KillRequest(t, mask, get, put, end);
            && KillAwaited(t'.desk) && (Books(t.desk) ==> Books(t'.desk))
            && (Sound(t.link) ==> Sound(t'.link)) && (Sound(t.link) && Waits(t) ==> Waits(t'))
            && Replied(t'.desk.replies, GetEvent)
               == Replied(t.desk.replies, GetEvent) + if GetEvent in mask && GetEvent in t.desk.pending then 1 else 0
  {
    var t1 := NameKills(t, mask);
    SameBooks(t.desk, mask, NoErr);
    KillDataKeeps(t1, Get, get);
    var t2 := KillData(t1, Get, get);
    KillDataKeeps(t2, Put, put);
    var t3 := KillData(t2, Put, put);
    KillControlKeeps(t3, end);
    var t4 := KillControl(t3, end);
    KillGetEventKeeps(t4);
    var t5 := KillGetEvent(t4);
    CompleteKeeps(t5.desk, Kill, NoErr);
  }

  // ---------- steps ----------

  /** The loop receives only what the filter lets through. */
  ghost predicate Received(d: Desk, e: Event) {
    match e
    case DataAsked(channel, _, _) => channel in d.filter
    case ControlAsked(_, _, _) => Control in d.filter
    case EventAsked => GetEvent in d.filter
    case KillAsked(_, _, _, _) => Kill in d.filter
    case StatusAsked(_) => Status in d.filter
    case ResArbAsked => ResArb in d.filter
    case _ => true
  }

  /** The tool answers the kill request of its own accord. */
  ghost predicate AnswersKill(d: Desk, e: Event) {
    e.DataDone? && e.channel == Kill && Kill in d.pending
  }

  /** What spoils the connection: letting go of a hold when there is none, beginning a connection while an
      abort waits, and options that do not fit. */
  ghost predicate Fits(t: Tool, e: Event) {
    match e
    case ControlAsked(op, _, _) => MayBegin(t.link, op)
    case OptionsDone(err, _) => Fitting(t.opCode, t.link, err)
    case Allow(_) => t.link.abortLock >= 1
    case _ => true
  }

  /** The step answers the request for an event that is pending: a kill request that names it, or the tool
      of its own accord. */
  ghost predicate AnswersEvent(d: Desk, e: Event) {
    GetEvent in d.pending && ((e.KillAsked? && GetEvent in e.mask) || (e.DataDone? && e.channel == GetEvent))
  }

  /** A step that receives what the filter lets through keeps the books; it keeps the kill request in
      step unless the tool answers that of its own accord; and it answers a request for an event
      exactly when it kills it, unless the tool does. */
  lemma StepBooks(t: Tool, e: Event)
    requires Books(t.desk) && Received(t.desk, e)
    ensures Books(Step(t, e).desk)
    ensures KillAwaited(t.desk) ==> (KillAwaited(Step(t, e).desk) <==> !AnswersKill(t.desk, e))
    ensures Replied(Step(t, e).desk.replies, GetEvent)
         == Replied(t.desk.replies, GetEvent) + if AnswersEvent(t.desk, e) then 1 else 0
  {
    match e
    case DataAsked(channel, first, second) =>
      ReceiveKeeps(t.desk, channel);
      DataRequestKeeps(Asked(t, channel), channel, first, second);
    case ControlAsked(op, imported, u) =>
      ReceiveKeeps(t.desk, Control);
      BaseEnds(u);
      DoControlKeeps(Asked(t, Control), op, imported, u, BaseEnding(u));
    case EventAsked =>
      ReceiveKeeps(t.desk, GetEvent);
      AnswerKeeps(Asked(t, GetEvent), Control, NoErr);
    case KillAsked(mask, get, put, u) =>
      ReceiveKeeps(t.desk, Kill);
      BaseEnds(u);
      KillRequestKeeps(Asked(t, Kill), mask, get, put, BaseEnding(u));
    case StatusAsked(err) =>
      ReceiveKeeps(t.desk, Status);
      AnswerKeeps(Asked(t, Status), Status, err);
    case ResArbAsked => ReceiveKeeps(t.desk, ResArb);
    case DataDone(channel, err) => CompleteKeeps(t.desk, channel, err);
    case KillDone(channel, err) => KillCompleteKeeps(t.desk, channel, err);
    case OptionsDone(err, u) =>
      BaseEnds(u);
      OptionsCompleteKeeps(t, err, u, BaseEnding(u));
    case Hold =>
    case Allow(u) =>
      BaseEnds(u);
      AllowAbortKeeps(t, BaseEnding(u));
    case Abort(reason, u) =>
      BaseEnds(u);
      StartAbortKeeps(t, reason, BaseEnding(u));
  }

  /** A step leaves the connection sound exactly when it fits. */
  lemma StepSound(t: Tool, e: Event)
    requires Sound(t.link)
    ensures Sound(Step(t, e).link) <==> Fits(t, e)
    ensures Waits(t) ==> Waits(Step(t, e))
  {
    match e
    case DataAsked(channel, first, second) => DataRequestKeeps(Asked(t, channel), channel, first, second);
    case ControlAsked(op, imported, u) =>
      BaseEnds(u);
      DoControlKeeps(Asked(t, Control), op, imported, u, BaseEnding(u));
    case EventAsked => AnswerKeeps(Asked(t, GetEvent), Control, NoErr);
    case KillAsked(mask, get, put, u) =>
      BaseEnds(u);
      KillRequestKeeps(Asked(t, Kill), mask, get, put, BaseEnding(u));
    case OptionsDone(err, u) =>
      BaseEnds(u);
      OptionsCompleteKeeps(t, err, u, BaseEnding(u));
    case Allow(u) =>
      BaseEnds(u);
      AllowAbortKeeps(t, BaseEnding(u));
    case Abort(reason, u) =>
      BaseEnds(u);
      StartAbortKeeps(t, reason, BaseEnding(u));
    case _ =>
  }

  // ---------- runs ----------

  function Run(t: Tool, events: seq<Event>): Tool {
    if events == [] then t else Step(Run(t, events[..|events| - 1]), events[|events| - 1])
  }

  /** The state before the n-th event. */
  function Before(t: Tool, events: seq<Event>, n: nat): Tool
    requires n <= |events|
  {
    Run(t, events[..n])
  }

  lemma RunStep(t: Tool, events: seq<Event>, n: nat)
    requires n < |events|
    ensures Before(t, events, n + 1) == Step(Before(t, events, n), events[n])
  {
    assert events[..n + 1][..n] == events[..n];
  }

  ghost predicate AllReceived(t: Tool, events: seq<Event>) {
    forall n | 0 <= n < |events| :: Received(Before(t, events, n).desk, events[n])
  }

  const START: Tool := Tool(
    Desk({}, ALL_CHANNELS, multiset{}, [], {}, NoErr),
    Link(State(false, false, false, false, false, false, false, false, false), 0, 0, NoErr, 0, 0), OtherOp(0), true, false)

  lemma StartKept()
    ensures Invariant(START)
  {
    forall c: Channel ensures Kept(START.desk, c) {
      assert c == Get || c == Put || c == Control || c == GetEvent || c == Kill || c == Status || c == ResArb;
    }
  }

  lemma {:induction false} RunBooksTo(t: Tool, events: seq<Event>, n: nat)
    requires Books(t.desk) && AllReceived(t, events) && n <= |events|
    ensures Books(Before(t, events, n).desk)
    ensures KillAwaited(t.desk) && (forall i | 0 <= i < n :: !AnswersKill(Before(t, events, i).desk, events[i]))
            ==> KillAwaited(Before(t, events, n).desk)
  {
    if n > 0 {
      RunBooksTo(t, events, n - 1);
      RunStep(t, events, n - 1);
      StepBooks(Before(t, events, n - 1), events[n - 1]);
    }
  }

  /** Every run that receives what the filter lets through keeps the books, and, as long as the tool does
      not answer kill requests of its own accord, the kill request in step. */
  lemma RunBooks(t: Tool, events: seq<Event>)
    requires Books(t.desk) && AllReceived(t, events)
    ensures Books(Run(t, events).desk)
    ensures KillAwaited(t.desk) && (forall i | 0 <= i < |events| :: !AnswersKill(Before(t, events, i).desk, events[i]))
            ==> KillAwaited(Run(t, events).desk)
  {
    RunBooksTo(t, events, |events|);
    assert events[..|events|] == events;
  }

  ghost predicate SoundAt(t: Tool, events: seq<Event>, n: nat)
    requires n <= |events|
  {
    Sound(Before(t, events, n).link)
  }

  ghost predicate FitsAt(t: Tool, events: seq<Event>, n: nat)
    requires n < |events|
  {
    Fits(Before(t, events, n), events[n])
  }

  /** The next event fits if, and only if, the connection is sound after it. */
  lemma NextSound(t: Tool, events: seq<Event>, n: nat)
    requires n < |events| && SoundAt(t, events, n)
    ensures SoundAt(t, events, n + 1) <==> FitsAt(t, events, n)
    ensures Waits(Before(t, events, n)) ==> Waits(Before(t, events, n + 1))
  {
    RunStep(t, events, n);
    StepSound(Before(t, events, n), events[n]);
  }

  ghost predicate AllSound(t: Tool, events: seq<Event>, n: nat)
    requires n <= |events|
  {
    forall i | 0 <= i <= n :: SoundAt(t, events, i)
  }

  ghost predicate AllFit(t: Tool, events: seq<Event>, n: nat)
    requires n <= |events|
  {
    forall i | 0 <= i < n :: FitsAt(t, events, i)
  }

  /** The connection is sound all through a run exactly when every event of it fits. */
  lemma {:induction false} RunSound(t: Tool, events: seq<Event>, n: nat)
    requires SoundAt(t, events, 0) && n <= |events|
    ensures AllSound(t, events, n) <==> AllFit(t, events, n)
    ensures Waits(Before(t, events, 0)) && AllFit(t, events, n) ==> Waits(Before(t, events, n))
  {
    if n == 0 {
      assert AllSound(t, events, 0);
    } else {
      RunSound(t, events, n - 1);
      if AllSound(t, events, n - 1) {
        assert SoundAt(t, events, n - 1);
        NextSound(t, events, n - 1);
        assert AllFit(t, events, n - 1);
        assert AllFit(t, events, n) <==> FitsAt(t, events, n - 1);
        assert AllSound(t, events, n) <==> SoundAt(t, events, n);
      } else {
        assert !AllSound(t, events, n);
        assert !AllFit(t, events, n);
      }
    }
  }
}
