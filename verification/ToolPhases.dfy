/** What each event makes of a connection, of the address the tool is bound to, and of the event it announces;
    and what the requests are told. */
module ToolPhases {
  import opened ToolSteps
  import opened ToolInvariant
  import opened ToolTheorems
  import opened ToolReplies
  import opened ToolRuns

  // ---------- what aborting leaves alone ----------

  /** Why an abort is begun. */
  function ReasonOf(e: Event): Error {
    if e.Abort? then e.reason else ConnectionAborted
  }

  /** Unless the connection is terminated it is as it was, but for an abort that waits; and a termination
      announces itself unless the tool brought it about. */
  ghost predicate Calm(t: Tool, t': Tool, reason: Error) {
    && t'.opCode == t.opCode && t'.link.f28 == t.link.f28 && t'.link.state.bound == t.link.state.bound
    && if Ended(t.link, t'.link) then t'.eventReady == (t.eventReady || t.link.f28 != 2)
       else
         && t'.eventReady == t.eventReady
         && t'.link.state == t.link.state.(wantAbort := t'.link.state.wantAbort)
         && t'.link.errStatus == if t'.link.aborts > t.link.aborts then reason else t.link.errStatus
  }

  lemma EndedLinkSame(op: OpCode, l: Link, err: Error)
    ensures EndedLink(op, l, err).f28 == l.f28 && EndedLink(op, l, err).state.bound == l.state.bound
  {
    match op
    case Connect => assert ConnectLink(l, err).f28 == l.f28;
    case Listen => assert ListenLink(l, err).f28 == l.f28;
    case Accept => assert ConnectLink(Unlisten(l), err).f28 == l.f28;
    case _ =>
  }

  lemma EndControlSame(t: Tool, err: Error, u: Error)
    ensures var t' := EndControl(t, err, u);
            t'.link.f28 == t.link.f28 && t'.link.state.bound == t.link.state.bound && t'.eventReady == t.eventReady
  {
    EndControlAnswers(t, err, u);
    EndedLinkSame(t.opCode, t.link, err);
    assert !t.link.state.closing && Control in t.desk.pending ==> ControlTerminated(t, err, u).eventReady == t.eventReady;
  }

  lemma TerminateCalm(t: Tool, u: Error)
    ensures Calm(t, TerminateComplete(t, u), NoErr)
  {
    var t0 := t.(link := Cleared(t.link));
    TerminateKeeps(t, u);
    TerminateCloses(t, u);
    EndControlSame(t0, t.link.errStatus, u);
    var t2 := EndKill(EndControl(t0, t.link.errStatus, u));
    AnnounceKeeps(t2);
  }

  lemma AllowCalm(t: Tool, u: Error)
    ensures Calm(t, AllowAbort(t, BaseEnding(u)), NoErr)
  {
    if t.link.state.wantAbort && t.link.abortLock == 1 {
      var t1 := t.(link := t.link.(state := t.link.state.(terminating := true)));
      TerminateCalm(t1, u);
      TerminateCloses(t1, u);
    }
  }

  lemma StartCalm(t: Tool, reason: Error, u: Error)
    ensures Calm(t, StartAbort(t, reason, BaseEnding(u)), reason)
  {
    if !t.link.state.wantAbort && Linked(t.link) {
      var begun := t.(link := BeginAbort(t.link, reason));
      AllowCalm(begun, u);
      AllowCounts(begun, u);
    }
  }

  lemma AllowCounts(t: Tool, u: Error)
    ensures AllowAbort(t, BaseEnding(u)).link.aborts == t.link.aborts
  {
    BaseEnds(u);
    AllowAbortKeeps(t, BaseEnding(u));
  }

  // ---------- what an event makes of the connection ----------

  datatype Phase = Idle | Connecting | Listening | Connected

  /** How far a sound connection has come. */
  function PhaseOf(s: State): Phase {
    if s.connected then Connected else if !s.connecting then Idle else if s.listenMode then Listening else Connecting
  }

  /** What an event makes of it that does not terminate it; op is the control request that was received last. */
  function Next(p: Phase, op: OpCode, e: Event): Phase {
    match e
    case ControlAsked(asked, imported, _) =>
      if (asked == Connect || asked == Listen) && p == Idle && imported == NoErr then Connecting
      else if asked == Accept && p == Listening && imported != NoErr then Idle
      else p
    case OptionsDone(err, _) =>
      if p == Connected || (op != Connect && op != Listen && op != Accept) then p
      else if err != NoErr then Idle
      else if op == Listen then Listening
      else Connected
    case _ => p
  }

  /** A connection is begun. */
  predicate Begins(l: Link, e: Event) {
    e.ControlAsked? && (e.op == Connect || e.op == Listen) && !Linked(l)
  }

  /** What is noted as the cause of a termination: 2 if it was asked for, 3 if the connection was released. */
  function CauseOf(t: Tool, e: Event): int {
    match e
    case ControlAsked(op, _, _) =>
      if !Linked(t.link) then 0 else if op == Close || op == Disconnect then 2 else if op == Release then 3 else 0
    case OptionsDone(err, u) => if t.opCode == Open && (err != NoErr || u != NoErr) && Linked(t.link) then 2 else 0
    case KillAsked(mask, _, _, _) =>
      if Control in mask && Control in t.desk.pending && (t.link.state.connecting || t.link.state.releasing) then 2 else 0
    case _ => 0
  }

  /** Only the first cause is kept. */
  function CauseAfter(t: Tool, e: Event): int {
    if Begins(t.link, e) then 0 else if t.link.f28 == 0 then CauseOf(t, e) else t.link.f28
  }

  function BoundAfter(t: Tool, e: Event): bool {
    if e.OptionsDone? && t.opCode == Bind && e.u == NoErr then true
    else if e.ControlAsked? && e.op == Unbind && !Linked(t.link) then false
    else t.link.state.bound
  }

  /** An event to announce, before there is a termination. */
  function ReadyAfter(t: Tool, e: Event): bool {
    if e.EventAsked? then false else t.eventReady || Begins(t.link, e)
  }

  /** What an event makes of a tool, but for its desk. */
  ghost predicate Turns(t: Tool, e: Event, t': Tool) {
    && t'.opCode == (if e.ControlAsked? then e.op else t.opCode)
    && t'.link.f28 == CauseAfter(t, e)
    && t'.link.state.bound == BoundAfter(t, e)
    && t'.eventReady == (ReadyAfter(t, e) || (Ended(t.link, t'.link) && CauseAfter(t, e) != 2))
    && (!Ended(t.link, t'.link) ==>
         && (Sound(t.link) && Fits(t, e) ==> PhaseOf(t'.link.state) == Next(PhaseOf(t.link.state), t.opCode, e))
         && t'.link.errStatus == if t'.link.aborts > t.link.aborts then ReasonOf(e) else t.link.errStatus)
  }

  lemma BecauseCalm(t: Tool, cause: int, u: Error)
    ensures Calm(t.(link := Because(t.link, cause)), AbortBecause(t, cause, BaseEnding(u)), ConnectionAborted)
    ensures AbortBecause(t, cause, BaseEnding(u)).link.f28 == if t.link.f28 == 0 then cause else t.link.f28
  {
    StartCalm(t.(link := Because(t.link, cause)), ConnectionAborted, u);
  }

  lemma ConnectTurns(t: Tool, op: OpCode, imported: Error, u: Error)
    requires op == Connect || op == Listen
    ensures Turns(t, ControlAsked(op, imported, u), Step(t, ControlAsked(op, imported, u)))
  {
  }

  lemma AcceptTurns(t: Tool, imported: Error, u: Error)
    ensures Turns(t, ControlAsked(Accept, imported, u), Step(t, ControlAsked(Accept, imported, u)))
  {
  }

  lemma OtherTurns(t: Tool, op: OpCode, imported: Error, u: Error)
    requires op.Open? || op.OptionMgmt? || op.GetProtAddr? || op.OtherOp? || op == Bind || op == Unbind
    ensures Turns(t, ControlAsked(op, imported, u), Step(t, ControlAsked(op, imported, u)))
  {
  }

  /** The tool with a request noted that may begin an abort. */
  ghost predicate Noted(t: Tool, op: OpCode, cause: int, t2: Tool) {
    && t2.opCode == op && t2.eventReady == t.eventReady
    && t2.link.f28 == cause && t2.link.state.bound == t.link.state.bound
    && PhaseOf(t2.link.state) == PhaseOf(t.link.state)
    && t2.link.errStatus == t.link.errStatus && t2.link.aborts == t.link.aborts && t2.link.terminations == t.link.terminations
  }

  lemma NotedTurns(t: Tool, op: OpCode, imported: Error, u: Error, t2: Tool, t': Tool)
    requires op != Connect && op != Listen && op != Accept && op != Unbind
    requires Noted(t, op, CauseAfter(t, ControlAsked(op, imported, u)), t2) && Calm(t2, t', ConnectionAborted)
    ensures Turns(t, ControlAsked(op, imported, u), t')
  {
  }

  lemma CalmSame(t: Tool)
    ensures Calm(t, t, ConnectionAborted)
  {
  }

  lemma DisconnectTurns(t: Tool, imported: Error, u: Error)
    ensures Turns(t, ControlAsked(Disconnect, imported, u), DoDisconnect(Asked(t, Control).(opCode := Disconnect), BaseEnding(u)))
  {
    var t1 := Asked(t, Control).(opCode := Disconnect);
    if Linked(t.link) {
      var t2 := t1.(link := Because(t1.link.(state := t1.link.state.(disconnectReq := true)), 2));
      StartCalm(t2, ConnectionAborted, u);
      NotedTurns(t, Disconnect, imported, u, t2, StartAbort(t2, ConnectionAborted, BaseEnding(u)));
    } else {
      var t2 := DisconnectComplete(t1, NotConnected);
      CalmSame(t2);
      NotedTurns(t, Disconnect, imported, u, t2, t2);
    }
  }

  lemma ReleaseTurns(t: Tool, imported: Error, u: Error)
    ensures Turns(t, ControlAsked(Release, imported, u), DoRelease(Asked(t, Control).(opCode := Release), BaseEnding(u)))
  {
    var t1 := Asked(t, Control).(opCode := Release);
    if Linked(t.link) {
      var t2 := t1.(link := Because(t1.link.(state := t1.link.state.(releasing := true)), 3));
      StartCalm(t2, ConnectionAborted, u);
      CalmSame(t2);
      NotedTurns(t, Release, imported, u, t2, ReleaseStart(t2, BaseEnding(u)));
    } else {
      var t2 := Answer(t1, Control, NotConnected);
      CalmSame(t2);
      NotedTurns(t, Release, imported, u, t2, t2);
    }
  }

  lemma CloseTurns(t: Tool, imported: Error, u: Error)
    ensures Turns(t, ControlAsked(Close, imported, u), CloseMarked(MarkClosing(Asked(t, Control).(opCode := Close)), BaseEnding(u)))
  {
    var t1 := MarkClosing(Asked(t, Control).(opCode := Close));
    if Linked(t.link) {
      var t2 := t1.(link := Because(t1.link, 2));
      StartCalm(t2, ConnectionAborted, u);
      NotedTurns(t, Close, imported, u, t2, StartAbort(t2, ConnectionAborted, BaseEnding(u)));
    } else {
      var t2 := CloseComplete(t1, NoErr);
      CalmSame(t2);
      NotedTurns(t, Close, imported, u, t2, t2);
    }
  }

  /** What options that are done make of the connection. */
  lemma OptionsLinkTurns(op: OpCode, l: Link, err: Error, u: Error)
    ensures var l' := OptionsLink(op, l, err, u);
            && l'.f28 == l.f28 && SameAbort(l, l')
            && l'.state.bound == (l.state.bound || (op == Bind && u == NoErr))
            && (Sound(l) && Fitting(op, l, err) ==> PhaseOf(l'.state) == Next(PhaseOf(l.state), op, OptionsDone(err, u)))
  {
    OptionsLinkKeeps(op, l, err, u);
  }

  lemma LaterOptionsTurn(t: Tool, err: Error, u: Error)
    requires t.opCode != Open
    ensures Turns(t, OptionsDone(err, u), OptionsComplete(t, err, u, BaseEnding(u)))
  {
    OptionsLinkTurns(t.opCode, t.link, err, u);
    var t' := OptionsComplete(t, err, u, BaseEnding(u));
    assert t' == if AwaitsOptions(t.opCode) then Answer(t.(link := OptionsLink(t.opCode, t.link, err, u)), Control, u) else t;
  }

  lemma OpenOptionsTurn(t: Tool, err: Error, u: Error)
    requires t.opCode == Open
    ensures Turns(t, OptionsDone(err, u), OpenOptionsComplete(t, err, u, BaseEnding(u)))
  {
    var result := if err != NoErr then err else u;
    BecauseCalm(MarkClosing(Answer(t, Control, result)), 2, u);
  }

  lemma OptionsTurn(t: Tool, err: Error, u: Error)
    ensures Turns(t, OptionsDone(err, u), OptionsComplete(t, err, u, BaseEnding(u)))
  {
    if t.opCode == Open {
      OpenOptionsTurn(t, err, u);
    } else {
      LaterOptionsTurn(t, err, u);
    }
  }

  lemma KillTurns(t: Tool, mask: set<Channel>, get: Killing, put: Killing, u: Error)
    ensures Turns(t, KillAsked(mask, get, put, u), Step(t, KillAsked(mask, get, put, u)))
  {
    var t1 := NameKills(Asked(t, Kill), mask);
    var t3 := KillData(KillData(t1, Get, get), Put, put);
    KillDataPending(t1, Get, get);
    KillDataPending(KillData(t1, Get, get), Put, put);
    KillControlTurns(t3, u);
    var t4 := KillControl(t3, BaseEnding(u));
    KillEnds(t4);
    assert Step(t, KillAsked(mask, get, put, u)) == EndKilling(KillGetEvent(t4));
  }

  /** The connection as an abort with cause 2 leaves it. */
  ghost predicate MayAbort(t: Tool, t': Tool, aborted: bool) {
    && t'.link.f28 == (if aborted && t.link.f28 == 0 then 2 else t.link.f28)
    && Calm(t.(link := t.link.(f28 := t'.link.f28)), t', ConnectionAborted)
  }

  lemma KillControlTurns(t: Tool, u: Error)
    ensures MayAbort(t, KillControl(t, BaseEnding(u)),
              Control in t.desk.toKill && Control in t.desk.pending && (t.link.state.connecting || t.link.state.releasing))
  {
    if Control in t.desk.toKill && Control in t.desk.pending && (t.link.state.connecting || t.link.state.releasing) {
      var l := Because(t.link, 2);
      BecauseCalm(t, 2, u);
      assert t.link.(f28 := l.f28) == l;
    }
  }

  lemma KillEnds(t: Tool)
    ensures EndKilling(KillGetEvent(t)).(desk := t.desk) == t
  {
  }

  lemma KillDataPending(t: Tool, channel: DataChannel, how: Killing)
    ensures var t' := KillData(t, channel, how);
            && t' == t.(desk := t'.desk)
            && (Control in t'.desk.pending <==> Control in t.desk.pending) && (Control in t'.desk.toKill <==> Control in t.desk.toKill)
  {
  }

  lemma AllowTurns(t: Tool, u: Error)
    ensures Turns(t, Allow(u), AllowAbort(t, BaseEnding(u)))
  {
    AllowCalm(t, u);
    AllowCounts(t, u);
  }

  lemma AbortTurns(t: Tool, reason: Error, u: Error)
    ensures Turns(t, Abort(reason, u), StartAbort(t, reason, BaseEnding(u)))
  {
    StartCalm(t, reason, u);
  }

  lemma ControlTurns(t: Tool, op: OpCode, imported: Error, u: Error)
    ensures Turns(t, ControlAsked(op, imported, u), Step(t, ControlAsked(op, imported, u)))
  {
    match op
    case Connect => ConnectTurns(t, op, imported, u);
    case Listen => ConnectTurns(t, op, imported, u);
    case Accept => AcceptTurns(t, imported, u);
    case Disconnect => DisconnectTurns(t, imported, u);
    case Release => ReleaseTurns(t, imported, u);
    case Close => CloseTurns(t, imported, u);
    case _ => OtherTurns(t, op, imported, u);
  }

  /** Requests for data, events, status and arbitration, and what is done of them, leave the connection alone. */
  lemma DataTurns(t: Tool, e: Event)
    requires e.DataAsked? || e.EventAsked? || e.StatusAsked? || e.ResArbAsked? || e.DataDone? || e.KillDone? || e.Hold?
    ensures Turns(t, e, Step(t, e))
  {
  }

  lemma StepTurns(t: Tool, e: Event)
    ensures Turns(t, e, Step(t, e))
  {
    match e
    case ControlAsked(op, imported, u) => ControlTurns(t, op, imported, u);
    case KillAsked(mask, get, put, u) => KillTurns(t, mask, get, put, u);
    case OptionsDone(err, u) => OptionsTurn(t, err, u);
    case Allow(u) => AllowTurns(t, u);
    case Abort(reason, u) => AbortTurns(t, reason, u);
    case _ => DataTurns(t, e);
  }

  // ---------- the connection over steps and runs ----------

  /** In a step that fits the connection goes on as the event says, or is terminated and there is none.  So a
      tool is connected exactly when options of a request to connect or accept are done without error, and
      listens when those of a request to listen are. */
  lemma StepPhase(t: Tool, e: Event)
    requires Sound(t.link) && Fits(t, e) && Reasoned(t.link) && (e.Abort? ==> e.reason != NoErr)
    ensures var t' := Step(t, e);
            PhaseOf(t'.link.state) == if Ended(t.link, t'.link) then Idle else Next(PhaseOf(t.link.state), t.opCode, e)
  {
    StepTurns(t, e);
    StepCuts(t, e);
  }

  /** The control request received last. */
  function LastAsked(t: Tool, events: seq<Event>, n: nat): OpCode
    requires n <= |events|
  {
    if n == 0 then t.opCode else if events[n - 1].ControlAsked? then events[n - 1].op else LastAsked(t, events, n - 1)
  }

  lemma OpAfter(t: Tool, e: Event)
    ensures Step(t, e).opCode == if e.ControlAsked? then e.op else t.opCode
  {
    StepTurns(t, e);
  }

  lemma NextOp(t: Tool, events: seq<Event>, n: nat)
    requires n < |events|
    ensures Before(t, events, n + 1).opCode == if events[n].ControlAsked? then events[n].op else Before(t, events, n).opCode
  {
    RunStep(t, events, n);
    OpAfter(Before(t, events, n), events[n]);
  }

  lemma {:induction false} LastAskedIs(t: Tool, events: seq<Event>, n: nat)
    requires n <= |events|
    ensures Before(t, events, n).opCode == LastAsked(t, events, n)
  {
    if n == 0 {
      assert events[..0] == [];
    } else {
      LastAskedIs(t, events, n - 1);
      NextOp(t, events, n - 1);
    }
  }

  /** So at every step of every run all of whose events fit and all of whose aborts have a reason; and the
      termination comes exactly when an abort has no hold left to wait for. */
  lemma RunPhase(events: seq<Event>, n: nat)
    requires n < |events| && AllFit(START, events, n + 1) && forall e | e in events :: e.Abort? ==> e.reason != NoErr
    ensures var l, l' := Before(START, events, n).link, Before(START, events, n + 1).link;
            var aborting := l.state.wantAbort || l'.aborts > l.aborts;
            PhaseOf(l'.state) == if aborting && l'.abortLock == 0 then Idle else Next(PhaseOf(l.state), LastAsked(START, events, n), events[n])
  {
    RunWaits(events, n);
    RunSound(START, events, n + 1);
    assert SoundAt(START, events, n) && FitsAt(START, events, n);
    if n > 0 {
      TerminationsClear(events, n - 1);
    }
    LastAskedIs(START, events, n);
    RunStep(START, events, n);
    assert events[n] in events;
    StepCuts(Before(START, events, n), events[n]);
    StepPhase(Before(START, events, n), events[n]);
  }

  // ---------- listening and accepting ----------

  /** A request to listen is answered when its options are done, and then the tool listens unless there was an
      error. */
  lemma ListenTold(t: Tool, u: Error, err: Error, v: Error)
    requires Sound(t.link) && !Linked(t.link) && Control in t.desk.filter
    ensures var t1 := Step(t, ControlAsked(Listen, NoErr, u));
            && PhaseOf(t1.link.state) == Connecting && Control in t1.desk.pending && t1.desk.replies == t.desk.replies
            && t1.opCode == Listen
            && var t2 := Step(t1, OptionsDone(err, v));
               && t2.desk.replies == t.desk.replies + [Reply(Control, v)] && Control in t2.desk.filter && Control !in t2.desk.pending
               && (if err == NoErr
                   then t2.link.state.listenMode && t2.link.state.connecting && !t2.link.state.connected
                   else !t2.link.state.listenMode && !t2.link.state.connecting && !t2.link.state.connected)
  {
  }

  /** A request to accept is answered when its options are done, and then the tool is connected unless there
      was an error. */
  lemma AcceptTold(t: Tool, u: Error, err: Error, v: Error)
    requires t.link.state.listenMode && t.link.state.connecting && !t.link.state.connected && Control in t.desk.filter
    ensures var t1 := Step(t, ControlAsked(Accept, NoErr, u));
            && t1.link == t.link && Control in t1.desk.pending && t1.desk.replies == t.desk.replies && t1.opCode == Accept
            && var t2 := Step(t1, OptionsDone(err, v));
               && t2.desk.replies == t.desk.replies + [Reply(Control, v)] && Control in t2.desk.filter && Control !in t2.desk.pending
               && !t2.link.state.listenMode && !t2.link.state.connecting && (t2.link.state.connected <==> err == NoErr)
  {
  }

  /** So listening and then accepting connects, with two replies. */
  lemma ListensAndAccepts(t: Tool, u: Error, v: Error)
    requires Sound(t.link) && !Linked(t.link) && Control in t.desk.filter
    ensures var t2 := Step(Step(t, ControlAsked(Listen, NoErr, u)), OptionsDone(NoErr, v));
            var t4 := Step(Step(t2, ControlAsked(Accept, NoErr, u)), OptionsDone(NoErr, v));
            && t4.link.state.connected && !t4.link.state.connecting && !t4.link.state.listenMode
            && t4.desk.replies == t.desk.replies + [Reply(Control, v), Reply(Control, v)]
  {
    ListenTold(t, u, NoErr, v);
    AcceptTold(Step(Step(t, ControlAsked(Listen, NoErr, u)), OptionsDone(NoErr, v)), u, NoErr, v);
  }

  /** A request to accept is refused by a tool that does not listen. */
  lemma AcceptRefused(t: Tool, imported: Error, u: Error)
    requires !t.link.state.listenMode && Control in t.desk.filter
    ensures var t' := Step(t, ControlAsked(Accept, imported, u));
            t'.desk.replies == t.desk.replies + [Reply(Control, NotConnected)] && t'.link == t.link
  {
  }

  // ---------- binding ----------

  /** A request to bind is answered when its options are done, and then the tool is bound if cleaning them up
      went well; until a request to unbind. */
  lemma Binds(t: Tool, u: Error, err: Error, v: Error)
    requires !Linked(t.link) && !t.link.state.bound && Control in t.desk.filter
    ensures var t1 := Step(t, ControlAsked(Bind, NoErr, u));
            && t1.link == t.link && Control in t1.desk.pending && t1.desk.replies == t.desk.replies
            && var t2 := Step(t1, OptionsDone(err, v));
               && t2.desk.replies == t.desk.replies + [Reply(Control, v)] && (t2.link.state.bound <==> v == NoErr)
               && var t3 := Step(t2, ControlAsked(Unbind, NoErr, u));
                  t3.desk.replies == t2.desk.replies + [Reply(Control, NoErr)] && !t3.link.state.bound
  {
  }

  // ---------- data ----------

  /** What a request for data is told at once, if anything: without a connection that there is none, while the
      connection is released that it is, and else the tool's own answer. */
  function DataAnswer(l: Link, first: Answering, second: Answering): Answering {
    if !l.state.connected then With(NotConnected)
    else if l.state.releasing then With(ReleasingConnection)
    else if first.With? then first else second
  }

  lemma DataTold(t: Tool, channel: DataChannel, first: Answering, second: Answering)
    requires channel in t.desk.filter
    ensures var t', answer := Step(t, DataAsked(channel, first, second)), DataAnswer(t.link, first, second);
            && (channel in t'.desk.pending <==> answer.NotYet?) && (channel in t'.desk.filter <==> answer.With?)
            && t'.desk.replies == t.desk.replies + (if answer.With? then [Reply(channel, answer.err)] else [])
            && t'.link == t.link
  {
  }

  // ---------- control requests ----------

  /** What a request on the control channel is told at once, if anything, unless it aborts a connection. */
  function ControlAnswer(t: Tool, op: OpCode, imported: Error, u: Error): Answering {
    match op
    case Open => NotYet
    case Close => With(NoErr)
    case Connect => if Linked(t.link) then With(AlreadyConnected) else if imported != NoErr then With(u) else NotYet
    case Listen => if Linked(t.link) then With(AlreadyConnected) else if imported != NoErr then With(u) else NotYet
    case Accept => if !t.link.state.listenMode then With(NotConnected) else if imported != NoErr then With(u) else NotYet
    case Disconnect => With(NotConnected)
    case Release => With(NotConnected)
    case Bind => if Linked(t.link) then With(AlreadyConnected) else if t.link.state.bound then With(AlreadyBound) else NotYet
    case Unbind => With(if Linked(t.link) then AlreadyConnected else NoErr)
    case OptionMgmt => NotYet
    case GetProtAddr => NotYet
    case OtherOp(_) => With(BadCommand)
  }

  ghost predicate Told(t: Tool, t': Tool, channel: Channel, answer: Answering) {
    && t'.desk.replies == t.desk.replies + (if answer.With? then [Reply(channel, answer.err)] else [])
    && (channel in t'.desk.pending <==> answer.NotYet?)
  }

  /** The requests that abort the connection there is. */
  predicate Aborting(l: Link, op: OpCode) {
    Linked(l) && (op == Close || op == Disconnect || op == Release)
  }

  lemma ControlTold(t: Tool, op: OpCode, imported: Error, u: Error)
    requires Control in t.desk.filter && !Aborting(t.link, op)
    ensures Told(t, Step(t, ControlAsked(op, imported, u)), Control, ControlAnswer(t, op, imported, u))
  {
  }

  /** The reply that ends the connection at once, or none. */
  lemma StartTold(t0: Tool, t: Tool, u: Error)
    requires t.desk == Asked(t0, Control).desk && t0.desk.toKill == {} && Kill !in t0.desk.pending
    requires t.link.state.closing || t.opCode == Disconnect || t.opCode == Release
    ensures Told(t0, StartAbort(t, ConnectionAborted, BaseEnding(u)), Control, if EndsAtOnce(t.link) then With(NoErr) else NotYet)
  {
    StartAbortDesk(t, ConnectionAborted, u);
    NoneKilled(CompleteRequest(t.desk, Control, NoErr));
  }

  lemma ReleaseTold(t: Tool, imported: Error, u: Error)
    requires Control in t.desk.filter && Linked(t.link) && t.desk.toKill == {} && Kill !in t.desk.pending
    ensures Told(t, DoRelease(Asked(t, Control).(opCode := Release), BaseEnding(u)), Control,
              if EndsAtOnce(t.link) && Put !in t.desk.pending then With(NoErr) else NotYet)
  {
    var t1 := Asked(t, Control).(opCode := Release);
    var t2 := t1.(link := Because(t1.link.(state := t1.link.state.(releasing := true)), 3));
    StartTold(t, t2, u);
  }

  lemma DisconnectTold(t: Tool, imported: Error, u: Error)
    requires Control in t.desk.filter && Linked(t.link) && t.desk.toKill == {} && Kill !in t.desk.pending
    ensures Told(t, DoDisconnect(Asked(t, Control).(opCode := Disconnect), BaseEnding(u)), Control,
              if EndsAtOnce(t.link) then With(NoErr) else NotYet)
  {
    var t1 := Asked(t, Control).(opCode := Disconnect);
    StartTold(t, t1.(link := Because(t1.link.(state := t1.link.state.(disconnectReq := true)), 2)), u);
  }

  lemma CloseTold(t: Tool, imported: Error, u: Error)
    requires Control in t.desk.filter && Linked(t.link) && t.desk.toKill == {} && Kill !in t.desk.pending
    ensures Told(t, CloseMarked(MarkClosing(Asked(t, Control).(opCode := Close)), BaseEnding(u)), Control,
              if EndsAtOnce(t.link) then With(NoErr) else NotYet)
  {
    var t1 := MarkClosing(Asked(t, Control).(opCode := Close));
    StartTold(t, t1.(link := Because(t1.link, 2)), u);
  }

  /** Those that abort it are told so without an error if it ends at once, and else wait; so does a request to
      release while data is put. */
  lemma AbortingTold(t: Tool, op: OpCode, imported: Error, u: Error)
    requires Control in t.desk.filter && Aborting(t.link, op) && t.desk.toKill == {} && Kill !in t.desk.pending
    ensures Told(t, Step(t, ControlAsked(op, imported, u)), Control,
              if EndsAtOnce(t.link) && !(op == Release && Put in t.desk.pending) then With(NoErr) else NotYet)
  {
    match op
    case Release => ReleaseTold(t, imported, u);
    case Disconnect => DisconnectTold(t, imported, u);
    case Close => CloseTold(t, imported, u);
  }

  /** The options of the control request that waits are done: what it is told first. */
  lemma OptionsTold(t: Tool, err: Error, u: Error)
    requires Control in t.desk.pending && AwaitsOptions(t.opCode)
    ensures Told(t, OptionsComplete(t, err, u, BaseEnding(u)), Control, With(u))
  {
  }

  lemma OpenTold(t: Tool, err: Error, u: Error)
    requires Control in t.desk.pending && t.opCode == Open
    ensures t.desk.replies + [Reply(Control, if err != NoErr then err else u)]
         <= OptionsComplete(t, err, u, BaseEnding(u)).desk.replies
  {
    var t1 := Answer(t, Control, if err != NoErr then err else u);
    CloseSays(t1, u);
  }

  /** Closing adds replies and takes none back. */
  lemma CloseSays(t: Tool, u: Error)
    ensures t.desk.replies <= CloseMarked(MarkClosing(t), BaseEnding(u)).desk.replies
  {
    StartAbortDesk(MarkClosing(t).(link := Because(MarkClosing(t).link, 2)), ConnectionAborted, u);
  }

  /** What the tool is told when it is done, it says, and to status requests what its state is worth. */
  lemma DoneTold(t: Tool, channel: Channel, err: Error)
    ensures channel in t.desk.pending ==> Told(t, Step(t, DataDone(channel, err)), channel, With(err))
    ensures channel !in t.desk.pending ==> Step(t, DataDone(channel, err)) == t
    ensures Status in t.desk.filter ==> Told(t, Step(t, StatusAsked(err)), Status, With(err))
  {
  }

  // ---------- requests that are killed ----------

  lemma KillDeskSays(d: Desk, channel: Channel, how: Killing)
    requires channel != Kill
    ensures d.replies <= KillDesk(d, channel, how).replies
    ensures channel in d.toKill && channel in d.pending && how.Now? ==>
              d.replies + [Reply(channel, RequestCanceled)] <= KillDesk(d, channel, how).replies && channel !in KillDesk(d, channel, how).pending
    ensures forall c :: c != channel && c != Kill ==>
              (c in KillDesk(d, channel, how).pending <==> c in d.pending) && (c in KillDesk(d, channel, how).toKill <==> c in d.toKill)
  {
  }

  /** The control request's part leaves replies and the other requests alone. */
  ghost predicate Leaves(d: Desk, d': Desk) {
    && d.replies <= d'.replies
    && (GetEvent in d'.pending <==> GetEvent in d.pending) && (GetEvent in d'.toKill <==> GetEvent in d.toKill)
    && (Get in d'.pending ==> Get in d.pending) && (Put in d'.pending ==> Put in d.pending)
  }

  lemma CompleteLeaves(d: Desk, channel: Channel, err: Error)
    requires channel == Control || channel == Kill
    ensures Leaves(d, CompleteRequest(d, channel, err))
  {
  }

  lemma KillCompleteLeaves(d: Desk, err: Error)
    ensures Leaves(d, KillRequestComplete(d, Control, err))
  {
    var d' := d.(toKill := d.toKill - {Control}, killErr := if err != NoErr && d.killErr == NoErr then err else d.killErr);
    CompleteLeaves(d', Kill, d'.killErr);
  }

  lemma KillControlLeaves(t: Tool, u: Error)
    ensures Leaves(t.desk, KillControl(t, BaseEnding(u)).desk)
  {
    var result := EndResult(t.(link := Because(t.link, 2)), ConnectionAborted, u);
    KillControlDesk(t, u);
    KillCompleteLeaves(t.desk, BadCommand);
    CompleteLeaves(t.desk, Control, result);
    KillCompleteLeaves(CompleteRequest(t.desk, Control, result), NoErr);
  }

  /** Among the replies that came after the first ones is this. */
  ghost predicate Since(first: seq<Reply>, replies: seq<Reply>, r: Reply) {
    first <= replies && exists k :: |first| <= k < |replies| && replies[k] == r
  }

  lemma SinceBefore(first: seq<Reply>, before: seq<Reply>, after: seq<Reply>, replies: seq<Reply>, r: Reply)
    requires first <= before && before + [r] <= after && after <= replies
    ensures Since(first, replies, r)
  {
    assert replies[|before|] == after[|before|] == (before + [r])[|before|] == r;
  }

  /** A request for data or for an event that a kill request names is told that it was canceled, if it ends at
      once; a request for an event always does. */
  lemma KilledTold(t: Tool, mask: set<Channel>, get: Killing, put: Killing, u: Error, c: Channel)
    requires c in mask && c in t.desk.pending && Kill in t.desk.filter
    requires (c == Get && get.Now?) || (c == Put && put.Now?) || c == GetEvent
    ensures var d := Step(t, KillAsked(mask, get, put, u)).desk;
            Since(t.desk.replies, d.replies, Reply(c, RequestCanceled)) && c !in d.pending
  {
    var t1 := NameKills(Asked(t, Kill), mask);
    var t2 := KillData(t1, Get, get);
    var t3 := KillData(t2, Put, put);
    var t4 := KillControl(t3, BaseEnding(u));
    var t5 := KillGetEvent(t4);
    KillDeskSays(t1.desk, Get, get);
    KillDeskSays(t2.desk, Put, put);
    KillControlLeaves(t3, u);
    KillDeskSays(t4.desk, GetEvent, Now(NoErr));
    KillingEnds(t5);
    assert Step(t, KillAsked(mask, get, put, u)) == EndKilling(t5);
    SinceStages(t.desk.replies, t2.desk.replies, t3.desk.replies, t4.desk.replies, t5.desk.replies, EndKilling(t5).desk.replies, c);
  }

  lemma KillingEnds(t: Tool)
    ensures t.desk.replies <= EndKilling(t).desk.replies
    ensures forall c :: c != Kill ==> (c in EndKilling(t).desk.pending <==> c in t.desk.pending)
  {
  }

  lemma SinceStages(r1: seq<Reply>, r2: seq<Reply>, r3: seq<Reply>, r4: seq<Reply>, r5: seq<Reply>, r6: seq<Reply>, c: Channel)
    requires r1 <= r2 <= r3 <= r4 <= r5 <= r6
    requires var r := Reply(c, RequestCanceled); r1 + [r] <= r2 || r2 + [r] <= r3 || r4 + [r] <= r5
    ensures Since(r1, r6, Reply(c, RequestCanceled))
  {
    var r := Reply(c, RequestCanceled);
    if r1 + [r] <= r2 {
      SinceBefore(r1, r1, r2, r6, r);
    } else if r2 + [r] <= r3 {
      SinceBefore(r1, r2, r3, r6, r);
    } else {
      SinceBefore(r1, r4, r5, r6, r);
    }
  }

  // ---------- releasing ----------

  /** A request to release a connection that nothing holds ends it at once and is answered without error; but
      while data is put it waits, and other requests for data are refused. */
  lemma Releases(t: Tool, u: Error, channel: DataChannel, first: Answering, second: Answering)
    requires EndsAtOnce(t.link) && Control in t.desk.filter && channel in t.desk.filter
    requires t.desk.toKill == {} && Kill !in t.desk.pending && !t.link.state.closing
    ensures var t1 := Step(t, ControlAsked(Release, NoErr, u));
            if Put in t.desk.pending then
              && t1.link.state == t.link.state.(releasing := true) && t1.desk.replies == t.desk.replies && Control in t1.desk.pending
              && (t.link.state.connected ==>
                   Step(t1, DataAsked(channel, first, second)).desk.replies == t.desk.replies + [Reply(channel, ReleasingConnection)])
            else
              && Terminated(t1.link) && !t1.link.state.releasing && t1.link.terminations == t.link.terminations + 1
              && t1.desk.replies == t.desk.replies + [Reply(Control, NoErr)]
  {
    var t0 := Asked(t, Control).(opCode := Release);
    var t2 := t0.(link := Because(t0.link.(state := t0.link.state.(releasing := true)), 3));
    if Put in t.desk.pending {
      assert Step(t, ControlAsked(Release, NoErr, u)) == t2;
      DataTold(t2, channel, first, second);
    } else {
      StartAbortLink(t2, ConnectionAborted, u);
      StartAbortDesk(t2, ConnectionAborted, u);
      NoneKilled(CompleteRequest(t0.desk, Control, NoErr));
      ReleaseEnds(t2, u);
      assert Step(t, ControlAsked(Release, NoErr, u)) == StartAbort(t2, ConnectionAborted, BaseEnding(u));
    }
  }

  /** A termination answers a request to disconnect or release that waits, and it is forgotten. */
  lemma TerminationForgets(t: Tool, u: Error)
    ensures var s, s' := t.link.state, TerminateComplete(t, u).link.state;
            var answered := Control in t.desk.pending && !s.closing;
            && (s'.disconnectReq <==> s.disconnectReq && !(answered && t.opCode == Disconnect))
            && (s'.releasing <==> s.releasing && !(answered && t.opCode == Release))
  {
    var t1 := t.(link := Cleared(t.link));
    EndControlAnswers(t1, t.link.errStatus, u);
    AnnounceKeeps(EndKill(EndControl(t1, t.link.errStatus, u)));
    EndedForgets(t.opCode, t1.link, t.link.errStatus);
  }

  lemma EndedForgets(op: OpCode, l: Link, err: Error)
    ensures EndedLink(op, l, err).state.disconnectReq == (l.state.disconnectReq && op != Disconnect)
    ensures EndedLink(op, l, err).state.releasing == (l.state.releasing && op != Release)
  {
    match op
    case Connect => assert ConnectLink(l, err).state.releasing == l.state.releasing;
    case Listen => assert ListenLink(l, err).state.releasing == l.state.releasing;
    case Accept => assert ConnectLink(Unlisten(l), err).state.releasing == l.state.releasing;
    case _ =>
  }

  lemma ReleaseEnds(t: Tool, u: Error)
    requires EndsAtOnce(t.link) && t.opCode == Release && Control in t.desk.pending && !t.link.state.closing
    ensures !StartAbort(t, ConnectionAborted, BaseEnding(u)).link.state.releasing
  {
    var begun := BeginAbort(t.link, ConnectionAborted);
    TerminationForgets(t.(link := begun.(state := begun.state.(terminating := true))), u);
  }
}
