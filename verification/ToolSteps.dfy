/** What the steps of a comm tool do to its state: seven request channels, a connection, and an abort
    lock that holds a termination back. */
module ToolSteps {
  datatype Channel = Get | Put | Control | GetEvent | Kill | Status | ResArb

  /** The channels of the requests for data. */
  type DataChannel = c: Channel | c == Get || c == Put witness Get

  datatype Error = NoErr | BadCommand | RequestCanceled | AlreadyConnected | NotConnected | ConnectionAborted
    | AlreadyBound | ReleasingConnection | OtherError(code: int)

  datatype OpCode = Open | Close | Connect | Listen | Accept | Disconnect | Release | Bind | Unbind | OptionMgmt
    | GetProtAddr | OtherOp(code: nat)

  datatype Reply = Reply(channel: Channel, err: Error)

  const ALL_CHANNELS: set<Channel> := {Get, Put, Control, GetEvent, Kill, Status, ResArb}

  /** The channels: requests that wait for a reply, requests that will be received, what was received
      and what was replied; and the requests that a kill request waits for, with the first error. */
  datatype Desk = Desk(pending: set<Channel>, filter: set<Channel>, accepted: multiset<Channel>, replies: seq<Reply>,
                       toKill: set<Channel>, killErr: Error)

  /** The bits of fState. */
  datatype State = State(connecting: bool, connected: bool, wantAbort: bool, releasing: bool, closing: bool,
                         disconnectReq: bool, listenMode: bool, terminating: bool, bound: bool)

  /** The connection: its state, why it ends, and the abort that waits. */
  datatype Link = Link(state: State, f28: int, abortLock: int, errStatus: Error, aborts: nat, terminations: nat)

  datatype Tool = Tool(desk: Desk, link: Link, opCode: OpCode, eventReady: bool, closed: bool)

  // ---------- channels ----------

  function CompleteRequest(d: Desk, channel: Channel, result: Error): Desk {
    if channel in d.pending then
      d.(pending := d.pending - {channel}, filter := d.filter + {channel}, replies := d.replies + [Reply(channel, result)])
    else d
  }

  function Receive(d: Desk, channel: Channel): Desk {
    d.(pending := d.pending + {channel}, filter := d.filter - {channel}, accepted := d.accepted + multiset{channel})
  }

  function KillRequestComplete(d: Desk, channel: Channel, result: Error): Desk {
    var d' := d.(toKill := d.toKill - {channel}, killErr := if result != NoErr && d.killErr == NoErr then result else d.killErr);
    if d'.toKill == {} then CompleteRequest(d', Kill, d'.killErr) else d'
  }

  function Answer(t: Tool, channel: Channel, result: Error): Tool {
    t.(desk := CompleteRequest(t.desk, channel, result))
  }

  predicate Linked(l: Link) {
    l.state.connecting || l.state.connected
  }

  /** if (f28 == 0) f28 = reason */
  function Because(l: Link, reason: int): Link {
    if l.f28 == 0 then l.(f28 := reason) else l
  }

  // ---------- completions; u is what cleaning the options up returns ----------

  function CloseComplete(t: Tool, result: Error): Tool {
    Answer(t.(closed := true, link := t.link.(state := t.link.state.(closing := false))), Control, result)
  }

  function ConnectLink(l: Link, result: Error): Link {
    l.(state := l.state.(connecting := false, connected := l.state.connected || result == NoErr))
  }

  function Unlisten(l: Link): Link {
    l.(state := l.state.(listenMode := false))
  }

  function ListenLink(l: Link, result: Error): Link {
    l.(state := l.state.(listenMode := l.state.listenMode && result == NoErr, connecting := l.state.connecting && result == NoErr))
  }

  function ConnectComplete(t: Tool, result: Error, u: Error): Tool {
    Answer(t.(link := ConnectLink(t.link, result)), Control, u)
  }

  function ListenComplete(t: Tool, result: Error, u: Error): Tool {
    Answer(t.(link := ListenLink(t.link, result)), Control, u)
  }

  function AcceptComplete(t: Tool, result: Error, u: Error): Tool {
    Answer(t.(link := ConnectLink(Unlisten(t.link), result)), Control, u)
  }

  function DisconnectComplete(t: Tool, result: Error): Tool {
    Answer(t.(link := t.link.(state := t.link.state.(disconnectReq := false))), Control, result)
  }

  function ReleaseComplete(t: Tool, result: Error): Tool {
    Answer(t.(link := t.link.(state := t.link.state.(releasing := false))), Control, result)
  }

  function BindLink(l: Link, u: Error): Link {
    l.(state := l.state.(bound := l.state.bound || u == NoErr))
  }

  function UnbindLink(l: Link, result: Error): Link {
    l.(state := l.state.(bound := l.state.bound && result != NoErr))
  }

  function BindComplete(t: Tool, u: Error): Tool {
    Answer(t.(link := BindLink(t.link, u)), Control, u)
  }

  function UnbindComplete(t: Tool, result: Error): Tool {
    Answer(t.(link := UnbindLink(t.link, result)), Control, result)
  }

  // ---------- aborting ----------

  function PostCommEvent(t: Tool): Tool {
    Answer(t, Control, NoErr)
  }

  /** What becomes of the connection for the request that is waiting when it terminates, and what the
      reply is. */
  function EndedLink(op: OpCode, l: Link, err: Error): Link {
    match op
    case Connect => ConnectLink(l, err)
    case Listen => ListenLink(l, err)
    case Accept => ConnectLink(Unlisten(l), err)
    case Disconnect => l.(state := l.state.(disconnectReq := false))
    case Release => l.(state := l.state.(releasing := false))
    case _ => l
  }

  function EndedReply(op: OpCode, err: Error, u: Error): Error {
    match op
    case Connect => u
    case Listen => u
    case Accept => u
    case Disconnect => NoErr
    case Release => NoErr
    case _ => err
  }

  function ControlTerminated(t: Tool, err: Error, u: Error): Tool {
    Answer(t.(link := EndedLink(t.opCode, t.link, err)), Control, EndedReply(t.opCode, err, u))
  }

  /** fErrStatus = noErr; fState &= ~0xC7 */
  function Cleared(l: Link): Link {
    l.(errStatus := NoErr, terminations := l.terminations + 1,
       state := l.state.(connecting := false, connected := false, wantAbort := false, listenMode := false, terminating := false))
  }

  /** The tool closes, or the control request that waits is answered. */
  function EndControl(t: Tool, err: Error, u: Error): Tool {
    if t.link.state.closing then CloseComplete(t, NoErr)
    else if Control in t.desk.pending then ControlTerminated(t, err, u)
    else t
  }

  function EndKill(t: Tool): Tool {
    t.(desk := KillRequestComplete(t.desk, Control, NoErr))
  }

  function Announce(t: Tool): Tool {
    if t.link.f28 != 2 then PostCommEvent(t).(eventReady := true) else t
  }

  function TerminateComplete(t: Tool, u: Error): Tool {
    Announce(EndKill(EndControl(t.(link := Cleared(t.link)), t.link.errStatus, u)))
  }

  /** How a termination ends; terminateComplete is the way of the base class. */
  type Ending = Tool -> Tool

  function BaseEnding(u: Error): Ending {
    (t: Tool) => TerminateComplete(t, u)
  }

  ghost predicate IsBase(end: Ending, u: Error) {
    forall t: Tool {:trigger TerminateComplete(t, u)} :: end(t) == TerminateComplete(t, u)
  }

  function HoldAbort(l: Link): Link {
    l.(abortLock := l.abortLock + 1)
  }

  /** The abort that is begun holds itself back until it is set up. */
  function BeginAbort(l: Link, reason: Error): Link {
    HoldAbort(l).(state := l.state.(wantAbort := true), errStatus := reason, aborts := l.aborts + 1)
  }

  function AllowAbort(t: Tool, end: Ending): Tool {
    var t' := if t.link.state.wantAbort && t.link.abortLock == 1 then end(t.(link := t.link.(state := t.link.state.(terminating := true)))) else t;
    t'.(link := t'.link.(abortLock := t'.link.abortLock - 1))
  }

  function StartAbort(t: Tool, reason: Error, end: Ending): Tool {
    if t.link.state.wantAbort || !Linked(t.link) then t
    else AllowAbort(t.(link := BeginAbort(t.link, reason)), end)
  }

  // ---------- control requests ----------

  /** connectCheck, when it allows the connection. */
  function Begin(t: Tool): Tool {
    t.(link := t.link.(state := t.link.state.(connecting := true), f28 := 0, abortLock := 0), eventReady := true)
  }

  function AbortBecause(t: Tool, reason: int, end: Ending): Tool {
    StartAbort(t.(link := Because(t.link, reason)), ConnectionAborted, end)
  }

  function MarkClosing(t: Tool): Tool {
    t.(link := t.link.(state := t.link.state.(closing := true)))
  }

  /** The tool is marked as closing; it closes when it has no connection left. */
  function CloseMarked(t: Tool, end: Ending): Tool {
    if Linked(t.link) then AbortBecause(t, 2, end) else CloseComplete(t, NoErr)
  }

  /** imported is the error with which the request's parameters were read. */
  function DoConnect(t: Tool, imported: Error, u: Error): Tool {
    if Linked(t.link) then Answer(t, Control, AlreadyConnected)
    else if imported != NoErr then ConnectComplete(Begin(t), imported, u)
    else Begin(t)
  }

  function DoListen(t: Tool, imported: Error, u: Error): Tool {
    if Linked(t.link) then Answer(t, Control, AlreadyConnected)
    else if imported != NoErr then ListenComplete(Begin(t), imported, u)
    else Begin(t)
  }

  function DoAccept(t: Tool, imported: Error, u: Error): Tool {
    if !t.link.state.listenMode then Answer(t, Control, NotConnected)
    else if imported != NoErr then AcceptComplete(t, imported, u)
    else t
  }

  function DoDisconnect(t: Tool, end: Ending): Tool {
    if !Linked(t.link) then DisconnectComplete(t, NotConnected)
    else AbortBecause(t.(link := t.link.(state := t.link.state.(disconnectReq := true))), 2, end)
  }

  function DoRelease(t: Tool, end: Ending): Tool {
    if !Linked(t.link) then Answer(t, Control, NotConnected)
    else ReleaseStart(t.(link := Because(t.link.(state := t.link.state.(releasing := true)), 3)), end)
  }

  function ReleaseStart(t: Tool, end: Ending): Tool {
    if Put !in t.desk.pending then StartAbort(t, ConnectionAborted, end) else t
  }

  function DoBind(t: Tool): Tool {
    if Linked(t.link) then Answer(t, Control, AlreadyConnected)
    else if t.link.state.bound then Answer(t, Control, AlreadyBound)
    else t
  }

  function DoUnbind(t: Tool): Tool {
    UnbindComplete(t, if Linked(t.link) then AlreadyConnected else NoErr)
  }

  function DoControl(t: Tool, op: OpCode, imported: Error, u: Error, end: Ending): Tool {
    var t' := t.(opCode := op);
    match op
    case Open => t'
    case Close => CloseMarked(MarkClosing(t'), end)
    case Connect => DoConnect(t', imported, u)
    case Listen => DoListen(t', imported, u)
    case Accept => DoAccept(t', imported, u)
    case Disconnect => DoDisconnect(t', end)
    case Release => DoRelease(t', end)
    case Bind => DoBind(t')
    case Unbind => DoUnbind(t')
    case OptionMgmt => t'
    case GetProtAddr => t'
    case OtherOp(_) => Answer(t', Control, BadCommand)
  }

  function Listens(l: Link, err: Error): Link {
    l.(state := l.state.(listenMode := l.state.listenMode || err == NoErr))
  }

  function OpenOptionsComplete(t: Tool, err: Error, u: Error, end: Ending): Tool {
    var result := if err != NoErr then err else u;
    var t' := Answer(t, Control, result);
    if result != NoErr then CloseMarked(MarkClosing(t'), end) else t'
  }

  /** The requests other than to open that wait for their options to be done. */
  predicate AwaitsOptions(op: OpCode) {
    op == Connect || op == Listen || op == Accept || op == Bind
  }

  /** What becomes of the connection for them. */
  function OptionsLink(op: OpCode, l: Link, err: Error, u: Error): Link {
    match op
    case Connect => ConnectLink(l, err)
    case Listen => ListenLink(Listens(l, err), err)
    case Accept => ConnectLink(Unlisten(l), err)
    case Bind => BindLink(l, u)
    case _ => l
  }

  /** The options of the control request have been dealt with. */
  function OptionsComplete(t: Tool, err: Error, u: Error, end: Ending): Tool {
    if t.opCode == Open then OpenOptionsComplete(t, err, u, end)
    else if AwaitsOptions(t.opCode) then Answer(t.(link := OptionsLink(t.opCode, t.link, err, u)), Control, u)
    else t
  }

  // ---------- the other requests ----------

  /** How the tool ends a data request that is to be killed: at once, or it will say when. */
  datatype Killing = Later | Now(err: Error)

  /** A data request: the option completion runs once or twice, and each time the tool may answer. */
  function DataRequest(t: Tool, channel: Channel, first: Answering, second: Answering): Tool {
    if !t.link.state.connected then Answer(t, channel, NotConnected)
    else if t.link.state.releasing then Answer(t, channel, ReleasingConnection)
    else MayAnswer(MayAnswer(t, channel, first), channel, second)
  }

  datatype Answering = NotYet | With(err: Error)

  function MayAnswer(t: Tool, channel: Channel, a: Answering): Tool {
    match a case NotYet => t case With(err) => Answer(t, channel, err)
  }

  function GetCommEvent(t: Tool): Tool {
    if t.eventReady then PostCommEvent(t).(eventReady := false) else t
  }

  function KillDesk(d: Desk, channel: Channel, how: Killing): Desk {
    if channel !in d.toKill then d
    else if channel !in d.pending then d.(toKill := d.toKill - {channel})
    else
      match how
      case Later => d
      case Now(err) => KillRequestComplete(CompleteRequest(d, channel, RequestCanceled), channel, err)
  }

  function KillData(t: Tool, channel: Channel, how: Killing): Tool {
    t.(desk := KillDesk(t.desk, channel, how))
  }

  function DoKillControl(t: Tool, end: Ending): Tool {
    if !t.link.state.connecting && !t.link.state.releasing then
      t.(desk := KillRequestComplete(t.desk, Control, BadCommand))
    else AbortBecause(t, 2, end)
  }

  function KillControl(t: Tool, end: Ending): Tool {
    if Control !in t.desk.toKill then t
    else if Control in t.desk.pending then DoKillControl(t, end)
    else t.(desk := t.desk.(toKill := t.desk.toKill - {Control}))
  }

  function KillGetEvent(t: Tool): Tool {
    t.(desk := KillDesk(t.desk, GetEvent, Now(NoErr)))
  }

  /** The kinds of requests in turn. */
  function KillEach(t: Tool, get: Killing, put: Killing, end: Ending): Tool {
    KillGetEvent(KillControl(KillData(KillData(t, Get, get), Put, put), end))
  }

  function NameKills(t: Tool, mask: set<Channel>): Tool {
    t.(desk := t.desk.(toKill := mask, killErr := NoErr))
  }

  function EndKilling(t: Tool): Tool {
    if t.desk.toKill == {} then Answer(t, Kill, NoErr) else t
  }

  function KillRequest(t: Tool, mask: set<Channel>, get: Killing, put: Killing, end: Ending): Tool {
    EndKilling(KillEach(NameKills(t, mask), get, put, end))
  }

  // ---------- steps ----------

  /** What the tool's event loop meets: a request on one of the channels, with what else decides how it
      goes; or an end of something that the tool began, which comes in its own time. */
  datatype Event =
    | DataAsked(data: DataChannel, first: Answering, second: Answering)
    | ControlAsked(op: OpCode, imported: Error, u: Error)
    | EventAsked
    | KillAsked(mask: set<Channel>, get: Killing, put: Killing, u: Error)
    | StatusAsked(err: Error)
    | ResArbAsked
    | OptionsDone(err: Error, u: Error)
    | DataDone(channel: Channel, err: Error)
    | KillDone(channel: Channel, err: Error)
    | Hold
    | Allow(u: Error)
    | Abort(reason: Error, u: Error)

  function Asked(t: Tool, channel: Channel): Tool {
    t.(desk := Receive(t.desk, channel))
  }

  function Step(t: Tool, e: Event): Tool {
    match e
    case DataAsked(channel, first, second) => DataRequest(Asked(t, channel), channel, first, second)
    case ControlAsked(op, imported, u) => DoControl(Asked(t, Control), op, imported, u, BaseEnding(u))
    case EventAsked => GetCommEvent(Asked(t, GetEvent))
    case KillAsked(mask, get, put, u) => KillRequest(Asked(t, Kill), mask, get, put, BaseEnding(u))
    case StatusAsked(err) => Answer(Asked(t, Status), Status, err)
    case ResArbAsked => Asked(t, ResArb)
    case OptionsDone(err, u) => OptionsComplete(t, err, u, BaseEnding(u))
    case DataDone(channel, err) => Answer(t, channel, err)
    case KillDone(channel, err) => t.(desk := KillRequestComplete(t.desk, channel, err))
    case Hold => t.(link := HoldAbort(t.link))
    case Allow(u) => AllowAbort(t, BaseEnding(u))
    case Abort(reason, u) => StartAbort(t, reason, BaseEnding(u))
  }
}
