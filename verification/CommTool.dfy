/** The comm tool itself: an object whose methods update its fields, step by step as in ToolSteps. */
module CommTool {
  import opened ToolSteps
  import opened ToolInvariant
  import ToolPhases

  class CCommTool {
    var fState: State
    var f28: int
    var fAbortLock: int
    var fErrStatus: Error
    /** f94[..].fRequestPending */
    var pending: set<Channel>
    var f208: set<Channel>
    var f174: set<Channel>
    var f1FC: Error
    var f1D4: OpCode
    /** fGetEventReply.fResult is not kCommErrNoEventPending. */
    var eventReady: bool
    var fIsClosed: bool
    ghost var accepted: multiset<Channel>
    ghost var replies: seq<Reply>
    ghost var aborts: nat
    ghost var terminations: nat

    ghost function View(): Tool
      reads this
    {
      Tool(DeskView(), LinkView(), f1D4, eventReady, fIsClosed)
    }

    ghost function DeskView(): Desk
      reads `pending, `f208, `accepted, `replies, `f174, `f1FC
    {
      Desk(pending, f208, accepted, replies, f174, f1FC)
    }

    ghost function LinkView(): Link
      reads `fState, `f28, `fAbortLock, `fErrStatus, `aborts, `terminations
    {
      Link(fState, f28, fAbortLock, fErrStatus, aborts, terminations)
    }

    constructor ()
      ensures View() == START && Invariant(View())
    {
      fState := State(false, false, false, false, false, false, false, false, false);
      f28, fAbortLock, fErrStatus := 0, 0, NoErr;
      pending, f208, f174, f1FC := {}, ALL_CHANNELS, {}, NoErr;
      f1D4, eventReady, fIsClosed := OtherOp(0), true, false;
      accepted, replies, aborts, terminations := multiset{}, [], 0, 0;
      new;
      StartKept();
    }

    method SetChannelFilter(channel: Channel, doSet: bool)
      modifies `f208
      ensures f208 == if doSet then old(f208) + {channel} else old(f208) - {channel}
    {
      if doSet { f208 := f208 + {channel}; } else { f208 := f208 - {channel}; }
    }

    method CompleteRequest(channel: Channel, result: Error)
      modifies `pending, `f208, `replies
      ensures DeskView() == ToolSteps.CompleteRequest(old(DeskView()), channel, result)
    {
      if channel in pending {
        pending := pending - {channel};
        SetChannelFilter(channel, true);
        replies := replies + [Reply(channel, result)];
      }
    }

    method KillRequestComplete(request: Channel, result: Error)
      modifies `pending, `f208, `replies, `f174, `f1FC
      ensures DeskView() == ToolSteps.KillRequestComplete(old(DeskView()), request, result)
    {
      f174 := f174 - {request};
      if result != NoErr {
        if f1FC == NoErr { f1FC := result; }
      }
      if f174 == {} {
        CompleteRequest(Kill, f1FC);
      }
    }

    // ---------- completions ----------

    method CloseComplete(result: Error)
      modifies this
      ensures View() == ToolSteps.CloseComplete(old(View()), result)
    {
      fIsClosed := true;
      fState := fState.(closing := false);
      CompleteRequest(Control, result);
    }

    /** What connectComplete does to the state. */
    method EndConnecting(result: Error)
      modifies `fState
      ensures LinkView() == ConnectLink(old(LinkView()), result)
    {
      fState := fState.(connecting := false);
      if result == NoErr {
        fState := fState.(connected := true);
      }
    }

    method ConnectComplete(result: Error, u: Error)
      modifies this
      ensures View() == ToolSteps.ConnectComplete(old(View()), result, u)
    {
      EndConnecting(result);
      CompleteRequest(Control, u);
    }

    method ListenComplete(result: Error, u: Error)
      modifies this
      ensures View() == ToolSteps.ListenComplete(old(View()), result, u)
    {
      if result != NoErr {
        fState := fState.(listenMode := false, connecting := false);
      }
      CompleteRequest(Control, u);
    }

    method AcceptComplete(result: Error, u: Error)
      modifies this
      ensures View() == ToolSteps.AcceptComplete(old(View()), result, u)
    {
      fState := fState.(listenMode := false);
      ConnectComplete(result, u);
    }

    method DisconnectComplete(result: Error)
      modifies this
      ensures View() == ToolSteps.DisconnectComplete(old(View()), result)
    {
      fState := fState.(disconnectReq := false);
      CompleteRequest(Control, result);
    }

    method ReleaseComplete(result: Error)
      modifies this
      ensures View() == ToolSteps.ReleaseComplete(old(View()), result)
    {
      fState := fState.(releasing := false);
      CompleteRequest(Control, result);
    }

    method BindComplete(u: Error)
      modifies this
      ensures View() == ToolSteps.BindComplete(old(View()), u)
    {
      if u == NoErr {
        fState := fState.(bound := true);
      }
      CompleteRequest(Control, u);
    }

    method UnbindComplete(result: Error)
      modifies this
      ensures View() == ToolSteps.UnbindComplete(old(View()), result)
    {
      if result == NoErr {
        fState := fState.(bound := false);
      }
      CompleteRequest(Control, result);
    }

    // ---------- aborting ----------

    method PostCommEvent()
      modifies this
      ensures View() == ToolSteps.PostCommEvent(old(View()))
    {
      if Control in pending {
        CompleteRequest(Control, NoErr);
      }
    }

    method ControlTerminated(err: Error, u: Error)
      modifies this
      ensures View() == ToolSteps.ControlTerminated(old(View()), err, u)
    {
      if f1D4 == OpCode.Connect || f1D4 == OpCode.Listen || f1D4 == OpCode.Accept {
        BeginningTerminated(err, u);
      } else {
        OtherTerminated(err, u);
      }
    }

    method BeginningTerminated(err: Error, u: Error)
      requires f1D4 == OpCode.Connect || f1D4 == OpCode.Listen || f1D4 == OpCode.Accept
      modifies this
      ensures View() == ToolSteps.ControlTerminated(old(View()), err, u)
    {
      match f1D4
      case Connect => ConnectComplete(err, u);
      case Listen => ListenComplete(err, u);
      case Accept => AcceptComplete(err, u);
    }

    method OtherTerminated(err: Error, ghost u: Error)
      requires f1D4 != OpCode.Connect && f1D4 != OpCode.Listen && f1D4 != OpCode.Accept
      modifies this
      ensures View() == ToolSteps.ControlTerminated(old(View()), err, u)
    {
      if f1D4 == OpCode.Disconnect {
        DisconnectComplete(NoErr);
      } else if f1D4 == OpCode.Release {
        ReleaseComplete(NoErr);
      } else {
        CompleteRequest(Control, err);
      }
    }

    method EndControl(err: Error, u: Error)
      modifies this
      ensures View() == ToolSteps.EndControl(old(View()), err, u)
    {
      if fState.closing {
        CloseComplete(NoErr);
      } else if Control in pending {
        ControlTerminated(err, u);
      }
    }

    method EndKill()
      modifies this
      ensures View() == ToolSteps.EndKill(old(View()))
    {
      KillRequestComplete(Control, NoErr);
    }

    method Announce()
      modifies this
      ensures View() == ToolSteps.Announce(old(View()))
    {
      if f28 != 2 {
        PostCommEvent();
        eventReady := true;
      }
    }

    method TerminateComplete(u: Error)
      modifies this
      ensures View() == ToolSteps.TerminateComplete(old(View()), u)
    {
      var err := fErrStatus;
      fErrStatus := NoErr;
      fState := fState.(connecting := false, connected := false, wantAbort := false, listenMode := false, terminating := false);
      terminations := terminations + 1;
      assert View() == old(View()).(link := Cleared(old(LinkView())));
      EndControl(err, u);
      EndKill();
      Announce();
    }

    /** With the base class's getNextTermProc there is nothing to terminate first. */
    method TerminateConnection(u: Error, ghost end: Ending)
      requires IsBase(end, u)
      modifies this
      ensures View() == end(old(View()))
    {
      TerminateComplete(u);
    }

    method HoldAbort()
      modifies `fAbortLock
      ensures LinkView() == ToolSteps.HoldAbort(old(LinkView()))
    {
      fAbortLock := fAbortLock + 1;
    }

    method AllowAbort(u: Error, ghost end: Ending)
      requires IsBase(end, u)
      modifies this
      ensures View() == ToolSteps.AllowAbort(old(View()), end)
    {
      if fState.wantAbort && fAbortLock == 1 {
        fState := fState.(terminating := true);
        assert LinkView() == old(LinkView()).(state := old(fState).(terminating := true));
        TerminateConnection(u, end);
      }
      fAbortLock := fAbortLock - 1;
    }

    method StartAbort(reason: Error, u: Error, ghost end: Ending)
      requires IsBase(end, u)
      modifies this
      ensures View() == ToolSteps.StartAbort(old(View()), reason, end)
    {
      if fState.wantAbort { return; }
      if !fState.connecting && !fState.connected { return; }
      HoldAbort();
      fState := fState.(wantAbort := true);
      fErrStatus := reason;
      aborts := aborts + 1;
      ghost var t := View();
      assert t == old(View()).(link := BeginAbort(old(LinkView()), reason));
      AllowAbort(u, end);
    }
  
    // ---------- control requests ----------

    /** if (f28 == 0) f28 = reason */
    method Because(reason: int)
      modifies `f28
      ensures LinkView() == ToolSteps.Because(old(LinkView()), reason)
    {
      if f28 == 0 { f28 := reason; }
    }

    method AbortBecause(reason: int, u: Error, ghost end: Ending)
      requires IsBase(end, u)
      modifies this
      ensures View() == ToolSteps.AbortBecause(old(View()), reason, end)
    {
      Because(reason);
      StartAbort(ConnectionAborted, u, end);
    }

    method Close(u: Error, ghost end: Ending)
      requires IsBase(end, u)
      modifies this
      ensures View() == ToolSteps.CloseMarked(MarkClosing(old(View())), end)
    {
      fState := fState.(closing := true);
      assert View() == MarkClosing(old(View()));
      CloseMarked(u, end);
    }

    method CloseMarked(u: Error, ghost end: Ending)
      requires IsBase(end, u)
      modifies this
      ensures View() == ToolSteps.CloseMarked(old(View()), end)
    {
      if fState.connecting || fState.connected {
        AbortBecause(2, u, end);
      } else {
        CloseComplete(NoErr);
      }
    }

    method ConnectCheck() returns (err: Error)
      modifies this
      ensures err == if Linked(old(LinkView())) then AlreadyConnected else NoErr
      ensures View() == if err == NoErr then Begin(old(View())) else old(View())
    {
      if fState.connecting || fState.connected { return AlreadyConnected; }
      fState := fState.(connecting := true);
      f28, fAbortLock := 0, 0;
      eventReady := true;
      return NoErr;
    }

    method Connect(imported: Error, u: Error)
      modifies this
      ensures View() == DoConnect(old(View()), imported, u)
      ensures old(Linked(LinkView()) && Control in pending) ==> replies == old(replies) + [Reply(Control, AlreadyConnected)]
      ensures !old(Linked(LinkView())) && imported == NoErr ==> fState.connecting && fAbortLock == 0 && replies == old(replies)
    {
      var err := ConnectCheck();
      if err != NoErr {
        CompleteRequest(Control, err);
      } else if imported != NoErr {
        ConnectComplete(imported, u);
      }
    }

    method Listen(imported: Error, u: Error)
      modifies this
      ensures View() == DoListen(old(View()), imported, u)
      ensures old(Linked(LinkView()) && Control in pending) ==> replies == old(replies) + [Reply(Control, AlreadyConnected)]
      ensures !old(Linked(LinkView())) && imported == NoErr ==> fState.connecting && fAbortLock == 0 && replies == old(replies)
    {
      var err := ConnectCheck();
      if err != NoErr {
        CompleteRequest(Control, err);
      } else if imported != NoErr {
        ListenComplete(imported, u);
      }
    }

    method Accept(imported: Error, u: Error)
      modifies this
      ensures View() == DoAccept(old(View()), imported, u)
      ensures old(!fState.listenMode && Control in pending) ==> replies == old(replies) + [Reply(Control, NotConnected)]
    {
      if !fState.listenMode {
        CompleteRequest(Control, NotConnected);
      } else if imported != NoErr {
        AcceptComplete(imported, u);
      }
    }

    method Disconnect(u: Error, ghost end: Ending)
      requires IsBase(end, u)
      modifies this
      ensures View() == DoDisconnect(old(View()), end)
      ensures old(!Linked(LinkView()) && Control in pending) ==> replies == old(replies) + [Reply(Control, NotConnected)]
    {
      if !fState.connecting && !fState.connected {
        DisconnectComplete(NotConnected);
      } else {
        fState := fState.(disconnectReq := true);
        assert View() == old(View()).(link := old(LinkView()).(state := old(fState).(disconnectReq := true)));
        AbortBecause(2, u, end);
      }
    }

    method Release(u: Error, ghost end: Ending)
      requires IsBase(end, u)
      modifies this
      ensures View() == DoRelease(old(View()), end)
      ensures old(!Linked(LinkView()) && Control in pending) ==> replies == old(replies) + [Reply(Control, NotConnected)]
    {
      if !fState.connecting && !fState.connected {
        CompleteRequest(Control, NotConnected);
      } else {
        fState := fState.(releasing := true);
        Because(3);
        assert View() == old(View()).(link := ToolSteps.Because(old(LinkView()).(state := old(fState).(releasing := true)), 3));
        ReleaseStart(u, end);
      }
    }

    method ReleaseStart(u: Error, ghost end: Ending)
      requires IsBase(end, u)
      modifies this
      ensures View() == ToolSteps.ReleaseStart(old(View()), end)
    {
      if Put !in pending {
        StartAbort(ConnectionAborted, u, end);
      }
    }

    method Bind()
      modifies this
      ensures View() == DoBind(old(View()))
      ensures old(Control in pending && (Linked(LinkView()) || fState.bound)) ==>
        replies == old(replies) + [Reply(Control, if old(Linked(LinkView())) then AlreadyConnected else AlreadyBound)]
      ensures old(!Linked(LinkView()) && !fState.bound) ==> replies == old(replies)
    {
      if fState.connecting || fState.connected {
        CompleteRequest(Control, AlreadyConnected);
      } else if fState.bound {
        CompleteRequest(Control, AlreadyBound);
      }
    }

    method Unbind()
      modifies this
      ensures View() == DoUnbind(old(View()))
      ensures !old(Linked(LinkView())) ==> !fState.bound
    {
      if fState.connecting || fState.connected {
        UnbindComplete(AlreadyConnected);
      } else {
        UnbindComplete(NoErr);
      }
    }

    method DoControl(op: OpCode, imported: Error, u: Error, ghost end: Ending)
      requires IsBase(end, u)
      modifies this
      ensures View() == ToolSteps.DoControl(old(View()), op, imported, u, end)
    {
      f1D4 := op;
      match op
      case Open =>
      case Close => Close(u, end);
      case Connect => Connect(imported, u);
      case Listen => Listen(imported, u);
      case Accept => Accept(imported, u);
      case Disconnect => Disconnect(u, end);
      case Release => Release(u, end);
      case Bind => Bind();
      case Unbind => Unbind();
      case OptionMgmt =>
      case GetProtAddr =>
      case OtherOp(_) => CompleteRequest(Control, BadCommand);
    }

    method OpenOptionsComplete(err: Error, u: Error, ghost end: Ending)
      requires IsBase(end, u)
      modifies this
      ensures View() == ToolSteps.OpenOptionsComplete(old(View()), err, u, end)
    {
      var result := if err != NoErr then err else u;
      CompleteRequest(Control, result);
      if result != NoErr {
        Close(u, end);
      }
    }

    method ListenOptionsComplete(err: Error, u: Error)
      modifies this
      ensures View() ==
        ToolSteps.ListenComplete(old(View()).(link := Listens(old(LinkView()), err)), err, u)
    {
      if err == NoErr {
        fState := fState.(listenMode := true);
      }
      ListenComplete(err, u);
    }

    /** processOptionsComplete, for the control channel */
    method OptionsComplete(err: Error, u: Error, ghost end: Ending)
      requires IsBase(end, u)
      modifies this
      ensures View() == ToolSteps.OptionsComplete(old(View()), err, u, end)
    {
      if f1D4 == OpCode.Connect || f1D4 == OpCode.Listen || f1D4 == OpCode.Accept {
        BeginningOptionsComplete(err, u, end);
      } else if f1D4 == OpCode.Open {
        OpenOptionsComplete(err, u, end);
      } else if f1D4 == OpCode.Bind {
        BindComplete(u);
      }
    }

    method BeginningOptionsComplete(err: Error, u: Error, ghost end: Ending)
      requires f1D4 == OpCode.Connect || f1D4 == OpCode.Listen || f1D4 == OpCode.Accept
      modifies this
      ensures View() == ToolSteps.OptionsComplete(old(View()), err, u, end)
    {
      match f1D4
      case Connect => ConnectComplete(err, u);
      case Listen => ListenOptionsComplete(err, u);
      case Accept => AcceptComplete(err, u);
    }

    // ---------- the other requests ----------

    method MayAnswer(channel: Channel, a: Answering)
      modifies this
      ensures View() == ToolSteps.MayAnswer(old(View()), channel, a)
    {
      if a.With? {
        CompleteRequest(channel, a.err);
      }
    }

    method PrepDataRequest(channel: Channel, first: Answering, second: Answering)
      modifies this
      ensures View() == DataRequest(old(View()), channel, first, second)
    {
      if !fState.connected {
        CompleteRequest(channel, NotConnected);
      } else if fState.releasing {
        CompleteRequest(channel, ReleasingConnection);
      } else {
        MayAnswer(channel, first);
        MayAnswer(channel, second);
      }
    }

    method GetCommEvent()
      modifies this
      ensures View() == ToolSteps.GetCommEvent(old(View()))
    {
      if eventReady {
        PostCommEvent();
        eventReady := false;
      }
    }

    method KillDataRequest(channel: Channel, how: Killing)
      modifies `pending, `f208, `replies, `f174, `f1FC
      ensures DeskView() == KillDesk(old(DeskView()), channel, how)
    {
      if channel in f174 {
        if channel !in pending {
          f174 := f174 - {channel};
        } else if how.Now? {
          CompleteRequest(channel, RequestCanceled);
          KillRequestComplete(channel, how.err);
        }
      }
    }

    method DoKillControl(u: Error, ghost end: Ending)
      requires IsBase(end, u)
      modifies this
      ensures View() == ToolSteps.DoKillControl(old(View()), end)
    {
      if !fState.connecting && !fState.releasing {
        KillRequestComplete(Control, BadCommand);
      } else {
        AbortBecause(2, u, end);
      }
    }

    method KillControlRequest(u: Error, ghost end: Ending)
      requires IsBase(end, u)
      modifies this
      ensures View() == KillControl(old(View()), end)
    {
      if Control in f174 {
        if Control in pending {
          DoKillControl(u, end);
        } else {
          f174 := f174 - {Control};
        }
      }
    }

    method KillEach(get: Killing, put: Killing, u: Error, ghost end: Ending)
      requires IsBase(end, u)
      modifies this
      ensures View() == ToolSteps.KillEach(old(View()), get, put, end)
    {
      KillDataRequest(Get, get);
      KillDataRequest(Put, put);
      KillControlRequest(u, end);
      KillDataRequest(GetEvent, Now(NoErr));
    }

    method EndKilling()
      modifies this
      ensures View() == ToolSteps.EndKilling(old(View()))
    {
      if f174 == {} {
        CompleteRequest(Kill, NoErr);
      }
    }

    method PrepKillRequest(mask: set<Channel>, get: Killing, put: Killing, u: Error, ghost end: Ending)
      requires IsBase(end, u)
      modifies this
      ensures View() == KillRequest(old(View()), mask, get, put, end)
    {
      f174 := mask;
      f1FC := NoErr;
      assert View() == NameKills(old(View()), mask);
      KillEach(get, put, u, end);
      EndKilling();
    }

    // ---------- the event loop ----------

    /** A request is received: it is pending, and no other will be received on its channel. */
    method Receive(channel: Channel)
      modifies this
      ensures View() == Asked(old(View()), channel)
    {
      pending := pending + {channel};
      accepted := accepted + multiset{channel};
      SetChannelFilter(channel, false);
    }

    /** A turn of taskMain's loop: it keeps the books, and the connection sound exactly when the event
        fits; and the connection, the cause of its end, the address and the event to announce turn as the
        event says. */
    method Handle(e: Event)
      requires Books(DeskView()) && Received(DeskView(), e)
      modifies this
      ensures View() == Step(old(View()), e)
      ensures Books(DeskView())
      ensures old(KillAwaited(DeskView())) ==> (KillAwaited(DeskView()) <==> !AnswersKill(old(DeskView()), e))
      ensures old(Sound(LinkView())) ==> (Sound(LinkView()) <==> Fits(old(View()), e))
      ensures ToolPhases.Turns(old(View()), e, View())
    {
      StepBooks(View(), e);
      ToolPhases.StepTurns(View(), e);
      if Sound(LinkView()) {
        StepSound(View(), e);
      }
      TakeTurn(e);
    }

    method TakeTurn(e: Event)
      modifies this
      ensures View() == Step(old(View()), e)
    {
      match e
      case DataAsked(channel, first, second) =>
        Receive(channel);
        PrepDataRequest(channel, first, second);
      case ControlAsked(op, imported, u) =>
        Receive(Control);
        DoControl(op, imported, u, BaseEnding(u));
      case EventAsked =>
        Receive(GetEvent);
        GetCommEvent();
      case KillAsked(mask, get, put, u) =>
        Receive(Kill);
        PrepKillRequest(mask, get, put, u, BaseEnding(u));
      case StatusAsked(err) =>
        Receive(Status);
        CompleteRequest(Status, err);
      case ResArbAsked => Receive(ResArb);
      case OptionsDone(err, u) => OptionsComplete(err, u, BaseEnding(u));
      case DataDone(channel, err) => CompleteRequest(channel, err);
      case KillDone(channel, err) => KillRequestComplete(channel, err);
      case Hold => HoldAbort();
      case Allow(u) => AllowAbort(u, BaseEnding(u));
      case Abort(reason, u) => StartAbort(reason, u, BaseEnding(u));
    }

    /** The event loop, until the tool is closed or nothing more comes. */
    method TaskMain(events: seq<Event>) returns (handled: nat)
      requires Invariant(View()) && AllReceived(View(), events)
      modifies this
      ensures handled <= |events| && (handled == |events| || fIsClosed)
      ensures View() == Run(old(View()), events[..handled])
      ensures Books(DeskView())
      ensures AllFit(old(View()), events, handled) ==> Sound(LinkView()) && Waits(View())
    {
      handled := 0;
      ghost var start := View();
      while handled < |events| && !fIsClosed
        invariant handled <= |events| && View() == Before(start, events, handled) && Books(DeskView())
      {
        RunStep(start, events, handled);
        Handle(events[handled]);
        handled := handled + 1;
      }
      RunSound(start, events, handled);
      assert AllSound(start, events, handled) ==> SoundAt(start, events, handled);
    }
  }
}
