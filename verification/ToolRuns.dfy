/** What waits over a run, whatever comes between: requests to be killed, and the tool that is to close. */
module ToolRuns {
  import opened ToolSteps
  import opened ToolInvariant
  import opened ToolTheorems
  import opened ToolReplies

  // ---------- what a termination settles ----------

  predicate Ended(l: Link, l': Link) {
    l'.terminations != l.terminations
  }

  /** A tool that is closing closes when the connection is terminated, and not otherwise. */
  ghost predicate Closes(t: Tool, t': Tool) {
    && (t'.closed <==> t.closed || (t.link.state.closing && Ended(t.link, t'.link)))
    && (t'.link.state.closing <==> t.link.state.closing && !Ended(t.link, t'.link))
  }

  /** The kill request that waits: requests on the channels gone have ended, and err is the first error. */
  ghost predicate KillWaits(d: Desk, d': Desk, gone: set<Channel>, err: Error) {
    && d'.toKill == d.toKill - gone && d'.killErr == First(d.killErr, err)
    && (Kill in d'.pending <==> d'.toKill != {})
    && (Kill !in d'.pending ==> Last(d'.replies, Reply(Kill, d'.killErr)))
  }

  /** A termination ends the control request that is to be killed, without an error. */
  ghost predicate Settles(t: Tool, t': Tool) {
    Kill in t.desk.pending && t.desk.toKill != {} ==>
      KillWaits(t.desk, t'.desk, if Ended(t.link, t'.link) then {Control} else {}, NoErr)
  }

  lemma WaitsSame(d: Desk, d': Desk)
    requires Kill in d.pending && d.toKill != {}
    requires d'.toKill == d.toKill && d'.killErr == d.killErr && Kill in d'.pending
    ensures KillWaits(d, d', {}, NoErr)
  {
    assert d.toKill - {} == d.toKill;
  }

  lemma WaitsLess(d: Desk, channel: Channel, err: Error)
    requires Kill in d.pending && d.toKill != {}
    ensures KillWaits(d, KillRequestComplete(d, channel, err), {channel}, err)
  {
  }

  lemma EndedLinkCloses(op: OpCode, l: Link, err: Error)
    ensures EndedLink(op, l, err).state.closing == l.state.closing
  {
    match op
    case Connect => assert ConnectLink(l, err).state.closing == l.state.closing;
    case Listen => assert ListenLink(l, err).state.closing == l.state.closing;
    case Accept => assert ConnectLink(Unlisten(l), err).state.closing == l.state.closing;
    case _ =>
  }

  lemma EndControlCloses(t: Tool, err: Error, u: Error)
    ensures EndControl(t, err, u).closed == (t.closed || t.link.state.closing)
    ensures !EndControl(t, err, u).link.state.closing
  {
    EndControlAnswers(t, err, u);
    EndedLinkCloses(t.opCode, t.link, err);
    assert !t.link.state.closing && Control in t.desk.pending ==> ControlTerminated(t, err, u).closed == t.closed;
  }

  /** A termination closes the tool if it is closing. */
  lemma TerminateCloses(t: Tool, u: Error)
    ensures var t' := TerminateComplete(t, u);
            && t'.closed == (t.closed || t.link.state.closing) && !t'.link.state.closing
            && t'.link.terminations == t.link.terminations + 1
  {
    var t0 := t.(link := Cleared(t.link));
    TerminateKeeps(t, u);
    EndControlCloses(t0, t.link.errStatus, u);
    AnnounceKeeps(EndKill(EndControl(t0, t.link.errStatus, u)));
  }

  lemma AnnounceKeeps(t: Tool)
    ensures Announce(t).link == t.link && Announce(t).closed == t.closed
  {
  }

  lemma TerminateSettles(t: Tool, u: Error)
    requires Kill in t.desk.pending && t.desk.toKill != {}
    ensures KillWaits(t.desk, TerminateComplete(t, u).desk, {Control}, NoErr)
  {
    TerminateDesk(t, u);
    WaitsLess(CompleteRequest(t.desk, Control, EndResult(t, t.link.errStatus, u)), Control, NoErr);
  }

  /** What the ends of an abort do to the tool. */
  ghost predicate Effect(t: Tool, t': Tool) {
    Closes(t, t') && Settles(t, t')
  }

  lemma SameEffect(t: Tool, t': Tool)
    requires t'.link.terminations == t.link.terminations && t'.link.state.closing == t.link.state.closing && t'.closed == t.closed
    requires t'.desk.toKill == t.desk.toKill && t'.desk.killErr == t.desk.killErr && (Kill in t'.desk.pending <==> Kill in t.desk.pending)
    ensures Effect(t, t')
  {
    if Kill in t.desk.pending && t.desk.toKill != {} {
      WaitsSame(t.desk, t'.desk);
    }
  }

  lemma AllowEffect(t: Tool, u: Error)
    ensures Effect(t, AllowAbort(t, BaseEnding(u)))
  {
    if t.link.state.wantAbort && t.link.abortLock == 1 {
      var t1 := t.(link := t.link.(state := t.link.state.(terminating := true)));
      TerminateCloses(t1, u);
      if Kill in t.desk.pending && t.desk.toKill != {} {
        TerminateSettles(t1, u);
      }
    } else {
      SameEffect(t, AllowAbort(t, BaseEnding(u)));
    }
  }

  lemma StartEffect(t: Tool, reason: Error, u: Error)
    ensures Effect(t, StartAbort(t, reason, BaseEnding(u)))
  {
    if t.link.state.wantAbort || !Linked(t.link) {
      SameEffect(t, t);
    } else {
      AllowEffect(t.(link := BeginAbort(t.link, reason)), u);
    }
  }

  lemma BecauseEffect(t: Tool, reason: int, u: Error)
    ensures Effect(t, AbortBecause(t, reason, BaseEnding(u)))
  {
    StartEffect(t.(link := Because(t.link, reason)), ConnectionAborted, u);
  }

  /** A control request is answered, and the connection is as told. */
  lemma AnswerEffect(t: Tool, l: Link, result: Error)
    requires l.terminations == t.link.terminations && l.state.closing == t.link.state.closing
    ensures Effect(t, Answer(t.(link := l), Control, result))
  {
    SameEffect(t, Answer(t.(link := l), Control, result));
  }

  /** A request to close, and what it does. */
  lemma CloseEffect(t: Tool, u: Error)
    ensures var t' := CloseMarked(MarkClosing(t), BaseEnding(u));
            && Settles(t, t')
            && (t'.closed <==> t.closed || !Linked(t.link) || Ended(t.link, t'.link))
            && (t'.link.state.closing <==> Linked(t.link) && !Ended(t.link, t'.link))
  {
    if Linked(t.link) {
      BecauseEffect(MarkClosing(t), 2, u);
    } else {
      var t' := CloseComplete(MarkClosing(t), NoErr);
      if Kill in t.desk.pending && t.desk.toKill != {} {
        WaitsSame(t.desk, t'.desk);
      }
    }
  }

  /** The same, of a tool that has begun something. */
  lemma BegunEffect(t: Tool, begun: Tool, l: Link, result: Error)
    requires begun.desk == t.desk && begun.closed == t.closed
    requires l.terminations == t.link.terminations && l.state.closing == t.link.state.closing
    ensures Effect(t, Answer(begun.(link := l), Control, result))
  {
    SameEffect(t, Answer(begun.(link := l), Control, result));
  }

  lemma ConnectEffect(t: Tool, imported: Error, u: Error)
    ensures Effect(t, DoConnect(t, imported, u))
  {
    if Linked(t.link) {
      AnswerEffect(t, t.link, AlreadyConnected);
    } else if imported != NoErr {
      BegunEffect(t, Begin(t), ConnectLink(Begin(t).link, imported), u);
    } else {
      SameEffect(t, Begin(t));
    }
  }

  lemma ListenEffect(t: Tool, imported: Error, u: Error)
    ensures Effect(t, DoListen(t, imported, u))
  {
    if Linked(t.link) {
      AnswerEffect(t, t.link, AlreadyConnected);
    } else if imported != NoErr {
      BegunEffect(t, Begin(t), ListenLink(Begin(t).link, imported), u);
    } else {
      SameEffect(t, Begin(t));
    }
  }

  lemma AcceptCompleteEffect(t: Tool, result: Error, u: Error)
    ensures Effect(t, AcceptComplete(t, result, u))
  {
    var l := OptionsLink(Accept, t.link, result, u);
    OptionsLinkKeeps(Accept, t.link, result, u);
    OptionsLinkCloses(Accept, t.link, result, u);
    AnswerEffect(t, l, u);
    assert AcceptComplete(t, result, u) == Answer(t.(link := l), Control, u);
  }

  lemma AcceptEffect(t: Tool, imported: Error, u: Error)
    ensures Effect(t, DoAccept(t, imported, u))
  {
    AnswerEffect(t, t.link, NotConnected);
    AcceptCompleteEffect(t, imported, u);
    SameEffect(t, t);
    assert DoAccept(t, imported, u) in {Answer(t, Control, NotConnected), AcceptComplete(t, imported, u), t};
  }

  lemma DisconnectEffect(t: Tool, u: Error)
    ensures Effect(t, DoDisconnect(t, BaseEnding(u)))
  {
    if Linked(t.link) {
      BecauseEffect(t.(link := t.link.(state := t.link.state.(disconnectReq := true))), 2, u);
    } else {
      AnswerEffect(t, t.link.(state := t.link.state.(disconnectReq := false)), NotConnected);
    }
  }

  lemma ReleaseEffect(t: Tool, u: Error)
    ensures Effect(t, DoRelease(t, BaseEnding(u)))
  {
    var t' := t.(link := Because(t.link.(state := t.link.state.(releasing := true)), 3));
    if !Linked(t.link) {
      AnswerEffect(t, t.link, NotConnected);
    } else if Put !in t.desk.pending {
      StartEffect(t', ConnectionAborted, u);
    } else {
      SameEffect(t, t');
    }
  }

  lemma BindEffect(t: Tool)
    ensures Effect(t, DoBind(t)) && Effect(t, DoUnbind(t))
  {
    SameEffect(t, DoBind(t));
    SameEffect(t, DoUnbind(t));
  }

  lemma ControlEffect(t: Tool, op: OpCode, imported: Error, u: Error)
    requires op != Close
    ensures Effect(t, DoControl(t, op, imported, u, BaseEnding(u)))
  {
    var t' := t.(opCode := op);
    match op
    case Connect => ConnectEffect(t', imported, u);
    case Listen => ListenEffect(t', imported, u);
    case Accept => AcceptEffect(t', imported, u);
    case Disconnect => DisconnectEffect(t', u);
    case Release => ReleaseEffect(t', u);
    case Bind => BindEffect(t');
    case Unbind => BindEffect(t');
    case OtherOp(_) => AnswerEffect(t', t'.link, BadCommand);
    case _ => SameEffect(t, t');
  }

  // ---------- steps ----------

  /** The event makes the tool close: a request to close, or options of an open request that are wrong. */
  predicate AsksToClose(t: Tool, e: Event) {
    || (e.ControlAsked? && e.op == Close)
    || (e.OptionsDone? && t.opCode == Open && (e.err != NoErr || e.u != NoErr))
  }

  /** What a step does to a tool, whether it closes or not. */
  ghost predicate Closing(t: Tool, t': Tool, asked: bool) {
    var closing := t.link.state.closing || asked;
    && (t'.closed <==> t.closed || (asked && !Linked(t.link)) || (closing && Ended(t.link, t'.link)))
    && (t'.link.state.closing <==> closing && !(asked && !Linked(t.link)) && !Ended(t.link, t'.link))
  }

  lemma OtherOptionsEffect(t: Tool, err: Error, u: Error)
    requires AwaitsOptions(t.opCode)
    ensures Effect(t, Answer(t.(link := OptionsLink(t.opCode, t.link, err, u)), Control, u))
  {
    OptionsLinkKeeps(t.opCode, t.link, err, u);
    OptionsLinkCloses(t.opCode, t.link, err, u);
    AnswerEffect(t, OptionsLink(t.opCode, t.link, err, u), u);
  }

  lemma LaterOptionsEffect(t: Tool, err: Error, u: Error)
    requires t.opCode != Open
    ensures Effect(t, OptionsComplete(t, err, u, BaseEnding(u)))
  {
    var t' := OptionsComplete(t, err, u, BaseEnding(u));
    if AwaitsOptions(t.opCode) {
      OtherOptionsEffect(t, err, u);
      assert t' == Answer(t.(link := OptionsLink(t.opCode, t.link, err, u)), Control, u);
    } else {
      SameEffect(t, t);
      assert t' == t;
    }
  }

  lemma OptionsEffect(t: Tool, err: Error, u: Error)
    ensures var t' := OptionsComplete(t, err, u, BaseEnding(u));
            Settles(t, t') && Closing(t, t', t.opCode == Open && (err != NoErr || u != NoErr))
  {
    if t.opCode == Open {
      OpenEffect(t, err, u);
    } else {
      LaterOptionsEffect(t, err, u);
    }
  }

  lemma OptionsLinkCloses(op: OpCode, l: Link, err: Error, u: Error)
    ensures OptionsLink(op, l, err, u).state.closing == l.state.closing
  {
    match op
    case Connect => assert ConnectLink(l, err).state.closing == l.state.closing;
    case Listen => assert ListenLink(Listens(l, err), err).state.closing == l.state.closing;
    case Accept => assert ConnectLink(Unlisten(l), err).state.closing == l.state.closing;
    case Bind => assert BindLink(l, u).state.closing == l.state.closing;
    case _ =>
  }

  lemma OpenEffect(t: Tool, err: Error, u: Error)
    ensures var t' := OpenOptionsComplete(t, err, u, BaseEnding(u));
            Settles(t, t') && Closing(t, t', err != NoErr || u != NoErr)
  {
    var result := if err != NoErr then err else u;
    var t1 := Answer(t, Control, result);
    AnswerEffect(t, t.link, result);
    assert t1.desk.toKill == t.desk.toKill && t1.desk.killErr == t.desk.killErr;
    if result != NoErr {
      CloseEffect(t1, u);
    }
  }

  /** Over a step the tool closes exactly when it is asked to without a connection, or is to close and its
      connection is terminated. */
  lemma StepCloses(t: Tool, e: Event)
    ensures Closing(t, Step(t, e), AsksToClose(t, e))
  {
    match e
    case DataAsked(channel, first, second) => DataSame(Asked(t, channel), channel, first, second);
    case ControlAsked(op, imported, u) =>
      if op == Close {
        CloseEffect(Asked(t, Control).(opCode := op), u);
      } else {
        ControlEffect(Asked(t, Control), op, imported, u);
      }
    case KillAsked(mask, get, put, u) => KillCloses(Asked(t, Kill), mask, get, put, u);
    case OptionsDone(err, u) => OptionsEffect(t, err, u);
    case Allow(u) => AllowEffect(t, u);
    case Abort(reason, u) => StartEffect(t, reason, u);
    case _ =>
  }

  lemma DataSame(t: Tool, channel: DataChannel, first: Answering, second: Answering)
    ensures var t' := DataRequest(t, channel, first, second);
            && t'.link == t.link && t'.closed == t.closed && t'.desk.toKill == t.desk.toKill && t'.desk.killErr == t.desk.killErr
            && (Kill in t'.desk.pending <==> Kill in t.desk.pending)
  {
  }

  lemma KillCloses(t: Tool, mask: set<Channel>, get: Killing, put: Killing, u: Error)
    ensures Closes(t, KillRequest(t, mask, get, put, BaseEnding(u)))
  {
    var t3 := KillData(KillData(NameKills(t, mask), Get, get), Put, put);
    BecauseEffect(t3, 2, u);
    var t4 := KillControl(t3, BaseEnding(u));
    assert Closes(t3, t4);
  }

  // ---------- requests to be killed ----------

  /** What the event ends of what is to be killed, and with what error. */
  function Gone(t: Tool, e: Event): set<Channel> {
    if e.KillDone? then {e.channel} else if Ended(t.link, Step(t, e).link) then {Control} else {}
  }

  function GoneError(e: Event): Error {
    if e.KillDone? then e.err else NoErr
  }

  /** Over a step that does not answer it otherwise, a kill request waits for what is left to kill; the last of
      that answers it, with the first error. */
  lemma StepKills(t: Tool, e: Event)
    requires Kill in t.desk.pending && t.desk.toKill != {} && Books(t.desk)
    requires Received(t.desk, e) && !AnswersKill(t.desk, e)
    ensures KillWaits(t.desk, Step(t, e).desk, Gone(t, e), GoneError(e))
  {
    assert Kept(t.desk, Kill);
    match e
    case DataAsked(channel, first, second) =>
      DataSame(Asked(t, channel), channel, first, second);
      WaitsSame(t.desk, Step(t, e).desk);
    case ControlAsked(op, imported, u) =>
      if op == Close {
        CloseEffect(Asked(t, Control).(opCode := op), u);
      } else {
        ControlEffect(Asked(t, Control), op, imported, u);
      }
    case KillDone(channel, err) => WaitsLess(t.desk, channel, err);
    case OptionsDone(err, u) => OptionsEffect(t, err, u);
    case Allow(u) => AllowEffect(t, u);
    case Abort(reason, u) => StartEffect(t, reason, u);
    case _ => OtherKills(t, e);
  }

  lemma OtherKills(t: Tool, e: Event)
    requires Kill in t.desk.pending && t.desk.toKill != {} && Kill !in t.desk.filter
    requires e.EventAsked? || e.StatusAsked? || e.ResArbAsked? || e.Hold? || (e.DataDone? && e.channel != Kill)
    ensures KillWaits(t.desk, Step(t, e).desk, {}, NoErr) && !Ended(t.link, Step(t, e).link)
  {
    WaitsSame(t.desk, Step(t, e).desk);
  }

  // ---------- runs ----------

  /** What the first n events end of what is to be killed, and the first error of it. */
  function GoneIn(t: Tool, events: seq<Event>, n: nat): set<Channel>
    requires n <= |events|
  {
    if n == 0 then {} else GoneIn(t, events, n - 1) + Gone(Before(t, events, n - 1), events[n - 1])
  }

  function ErrorIn(events: seq<Event>, n: nat): Error
    requires n <= |events|
  {
    if n == 0 then NoErr else First(ErrorIn(events, n - 1), GoneError(events[n - 1]))
  }

  lemma KillWaitsOn(d: Desk, d': Desk, d'': Desk, gone: set<Channel>, more: set<Channel>, err: Error, next: Error)
    requires KillWaits(d, d', gone, err) && KillWaits(d', d'', more, next)
    ensures KillWaits(d, d'', gone + more, First(err, next))
  {
    assert d.toKill - (gone + more) == d.toKill - gone - more;
  }

  /** The tool leaves kill requests to those that end. */
  ghost predicate LeavesKills(t: Tool, events: seq<Event>) {
    forall i | 0 <= i < |events| :: !AnswersKill(Before(t, events, i).desk, events[i])
  }

  /** Over any run, whatever comes between: a kill request waits as long as something is left of what it
      names, ended by the tool or by a termination; what ends last answers it, with the first error. */
  lemma {:induction false} KilledLater(t: Tool, events: seq<Event>, n: nat)
    requires Books(t.desk) && Kill in t.desk.pending && t.desk.toKill != {}
    requires AllReceived(t, events) && LeavesKills(t, events) && n <= |events|
    requires n > 0 ==> !(t.desk.toKill <= GoneIn(t, events, n - 1))
    ensures KillWaits(t.desk, Before(t, events, n).desk, GoneIn(t, events, n), ErrorIn(events, n))
  {
    if n == 0 {
      WaitsSame(t.desk, t.desk);
    } else {
      KilledLater(t, events, n - 1);
      RunBooksTo(t, events, n - 1);
      RunStep(t, events, n - 1);
      var here := Before(t, events, n - 1);
      StepKills(here, events[n - 1]);
      KillWaitsOn(t.desk, here.desk, Before(t, events, n).desk, GoneIn(t, events, n - 1), Gone(here, events[n - 1]),
        ErrorIn(events, n - 1), GoneError(events[n - 1]));
    }
  }

  /** So a kill request that is not answered at once is answered when the last that it names has ended, with
      the first error of them all. */
  lemma KillAnsweredLater(t: Tool, mask: set<Channel>, get: Killing, put: Killing, u: Error, events: seq<Event>, n: nat)
    requires Books(t.desk) && Kill in t.desk.filter && !AllEnd(t, mask, get, put)
    requires var t' := Step(t, KillAsked(mask, get, put, u));
             && AllReceived(t', events) && LeavesKills(t', events) && 0 < n <= |events|
             && t'.desk.toKill <= GoneIn(t', events, n) && !(t'.desk.toKill <= GoneIn(t', events, n - 1))
    ensures var d := Before(Step(t, KillAsked(mask, get, put, u)), events, n).desk;
            Kill !in d.pending && Last(d.replies, Reply(Kill, First(KillError(t, mask, get, put), ErrorIn(events, n))))
  {
    var t' := Step(t, KillAsked(mask, get, put, u));
    KillReply(t, mask, get, put, u);
    StepBooks(t, KillAsked(mask, get, put, u));
    KilledLater(t', events, n);
  }

  /** Over any run every event of which fits, whatever comes between: the tool closes at the step that asks it
      to without a connection, or after which the abort of its connection has no hold left to wait for. */
  lemma RunCloses(events: seq<Event>, n: nat)
    requires n < |events| && AllFit(START, events, n + 1)
    ensures var t, t' := Before(START, events, n), Before(START, events, n + 1);
            var asked := AsksToClose(t, events[n]);
            var aborting := t.link.state.wantAbort || t'.link.aborts > t.link.aborts;
            t'.closed <==> t.closed || (asked && !Linked(t.link))
                           || ((t.link.state.closing || asked) && aborting && t'.link.abortLock == 0)
  {
    RunWaits(events, n);
    RunStep(START, events, n);
    StepCuts(Before(START, events, n), events[n]);
    StepCloses(Before(START, events, n), events[n]);
  }
}
