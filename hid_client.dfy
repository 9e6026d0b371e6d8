/** The WebSocket client: the send gate, the normalisation of reports and the connection flag. */
module HidClient {
  import opened Wire

  /** The states of .NET's `WebSocketState`; `Fresh` is its `None` (a socket not yet connected). */
  datatype SocketState = Fresh | Connecting | Open | CloseSent | CloseReceived | Closed | Aborted

  /** How a close handshake ends: it returns, or it throws and leaves the socket in a state the
      client's code does not determine. */
  datatype CloseOutcome = CloseReturns | CloseThrows(leftIn: SocketState)

  /** What the receive loop can get from the socket: a data frame; a Close frame, answered by a close
      handshake that ends as `reply` says; or an exception, after which the socket is in `leftIn`. */
  datatype Inbound = DataFrame | CloseFrame(reply: CloseOutcome) | Fault(leftIn: SocketState)

  /** The socket state a close handshake leaves behind. */
  function AfterClose(close: CloseOutcome): SocketState
  {
    match close
    case CloseReturns => Closed
    case CloseThrows(s) => s
  }

  /** The client's connection state: the `_isConnected` flag and the socket, `None` before the first connect. */
  datatype ConnState = ConnState(isConnected: bool, socket: Option<SocketState>)

  const Initial := ConnState(false, None)

  /** The `IsConnected` property: the flag AND an open socket. */
  predicate Connected(c: ConnState)
  {
    c.isConnected && c.socket == Some(Open)
  }

  const ClampLimit := 127

  /** `Math.Clamp`: the point of [min, max] nearest to `value`. */
  function Clamp(value: int, min: int, max: int): (r: int)
    requires min <= max
    ensures min <= r <= max
    ensures min <= value <= max ==> r == value
    ensures forall v :: min <= v <= max ==> Dist(r, value) <= Dist(v, value)
  {
    if value < min then min else if value > max then max else value
  }

  function Dist(a: int, b: int): nat
  {
    if a < b then b - a else a - b
  }

  function ClampAxis(v: int): int
  {
    Clamp(v, -ClampLimit, ClampLimit)
  }

  /** The six-slot key array: entry i is keycodes[i] for i < min(|keycodes|, 6), and 0 otherwise. */
  function KeyArray(keycodes: seq<int>): (k: seq<int>)
    ensures |keycodes| <= 6 ==> k == keycodes + seq(6 - |keycodes|, _ => 0)
    ensures |keycodes| >= 6 ==> k == keycodes[..6]
  {
    seq(6, i requires 0 <= i < 6 => if i < |keycodes| then keycodes[i] else 0)
  }

  /** A report in the shape the client puts on the wire. */
  predicate WireValid(msg: Msg)
  {
    match msg
    case Mouse(x, y, _, w) =>
      -ClampLimit <= x <= ClampLimit && -ClampLimit <= y <= ClampLimit && -ClampLimit <= w <= ClampLimit
    case Keyboard(_, k) => |k| == 6
  }

  /** What the client makes of a request before serialising it: mouse axes and wheel clamped,
      the key list padded or truncated to six slots; buttons and modifiers pass through. */
  function Normalize(req: Msg): (frame: Msg)
    ensures WireValid(frame) && Tag(frame) == Tag(req)
    ensures req.Mouse? ==> frame.b == req.b
    ensures req.Mouse? && -ClampLimit <= req.x <= ClampLimit ==> frame.x == req.x
    ensures req.Mouse? && -ClampLimit <= req.y <= ClampLimit ==> frame.y == req.y
    ensures req.Mouse? && -ClampLimit <= req.w <= ClampLimit ==> frame.w == req.w
    ensures req.Keyboard? ==> frame.m == req.m
    ensures req.Keyboard? ==>
      forall i :: 0 <= i < 6 ==> frame.k[i] == if i < |req.k| then req.k[i] else 0
  {
    match req
    case Mouse(x, y, b, w) => Mouse(ClampAxis(x), ClampAxis(y), b, ClampAxis(w))
    case Keyboard(m, k) => Keyboard(m, KeyArray(k))
  }

  /** A report already in wire shape is sent as it is, so normalising twice is normalising once. */
  lemma NormalizeFixesWireFrames(msg: Msg)
    ensures WireValid(msg) ==> Normalize(msg) == msg
    ensures Normalize(Normalize(msg)) == Normalize(msg)
  {
    if msg.Keyboard? && WireValid(msg) {
      assert KeyArray(msg.k) == msg.k;
    }
    var n := Normalize(msg);
    if n.Keyboard? {
      assert KeyArray(n.k) == n.k;
    }
  }

  /** Out-of-range motion saturates: 1000 becomes 127 and -1000 becomes -127. */
  lemma ClampSaturates(b: byte)
    ensures Normalize(Mouse(1000, -1000, b, 1000)) == Mouse(127, -127, b, 127)
    ensures Normalize(Mouse(-1000, 1000, b, -1000)) == Mouse(-127, 127, b, -127)
  {
  }

  /** The frames one send puts on the wire: nothing unless connected, else the normalised report. */
  function Deliver(c: ConnState, req: Msg): (frames: seq<Msg>)
    ensures |frames| <= 1
    ensures frames != [] <==> Connected(c)
    ensures frames != [] ==> frames[0] == Normalize(req)
  {
    if Connected(c) then [Normalize(req)] else []
  }

  /** The frames a run of sends puts on the wire while the connection state stays `c`. */
  function DeliverAll(c: ConnState, reqs: seq<Msg>): (frames: seq<Msg>)
    ensures !Connected(c) ==> frames == []
    ensures Connected(c) ==> |frames| == |reqs| && forall i :: 0 <= i < |reqs| ==> frames[i] == Normalize(reqs[i])
  {
    if reqs == [] then [] else Deliver(c, reqs[0]) + DeliverAll(c, reqs[1..])
  }

  /** `ConnectAsync`: a fresh socket; the flag is raised only once the handshake has returned.
      A failed handshake throws, leaves the socket Closed and does not touch the flag. */
  function AfterConnect(c: ConnState, accepted: bool): (r: ConnState)
    ensures Connected(r) <==> accepted
    ensures r.isConnected <==> accepted || c.isConnected
  {
    if accepted then ConnState(true, Some(Open)) else ConnState(c.isConnected, Some(Closed))
  }

  /** `ReceiveLoop`: reads while the socket is open; data frames are ignored. A Close frame is answered
      with a close handshake, and then the flag is lowered; if that handshake throws, the exception
      handler lowers the flag. An exception lowers the flag. The loop ends in every one of these cases. */
  function AfterReceive(c: ConnState, incoming: seq<Inbound>): ConnState
  {
    if c.socket != Some(Open) || incoming == [] then c
    else match incoming[0]
      case DataFrame => AfterReceive(c, incoming[1..])
      case CloseFrame(reply) => ConnState(false, Some(AfterClose(reply)))
      case Fault(leftIn) => ConnState(false, Some(leftIn))
  }

  /** The receive loop never raises the flag, and while the socket is open it lowers the flag
      exactly when a Close frame or an exception arrives. */
  lemma {:induction false} ReceiveLowersFlag(c: ConnState, incoming: seq<Inbound>)
    ensures AfterReceive(c, incoming).isConnected ==> c.isConnected
    ensures c.socket == Some(Open) ==>
      (!AfterReceive(c, incoming).isConnected <==> !c.isConnected || exists x :: x in incoming && !x.DataFrame?)
    ensures c.socket != Some(Open) ==> AfterReceive(c, incoming) == c
  {
    if c.socket == Some(Open) && incoming != [] {
      ReceiveLowersFlag(c, incoming[1..]);
      assert incoming == [incoming[0]] + incoming[1..];
    }
  }

  /** `DisconnectAsync`: closes an open socket, then lowers the flag. A close handshake that throws
      skips the flag update. */
  function AfterDisconnect(c: ConnState, close: CloseOutcome): (r: ConnState)
    ensures close.CloseReturns? || c.socket != Some(Open) ==> !r.isConnected && !Connected(r)
    ensures close.CloseThrows? && c.socket == Some(Open) ==>
      r.isConnected == c.isConnected && r.socket == Some(close.leftIn)
    ensures Connected(r) ==> Connected(c)
  {
    if c.socket == Some(Open) then
      ConnState(close.CloseThrows? && c.isConnected, Some(AfterClose(close)))
    else ConnState(false, c.socket)
  }

  /** Disconnecting a second time changes nothing, whatever the second close would have done. */
  lemma DisconnectIdempotent(c: ConnState, close: CloseOutcome)
    ensures AfterDisconnect(AfterDisconnect(c, CloseReturns), close) == AfterDisconnect(c, CloseReturns)
  {
  }

  /** A call on the client, with the network's answer as a parameter. */
  datatype ClientCall =
    | ConnectCall(accepted: bool)
    | ReceiveCall(incoming: seq<Inbound>)
    | DisconnectCall(close: CloseOutcome)
    | SendCall(req: Msg)

  function Step(c: ConnState, call: ClientCall): ConnState
  {
    match call
    case ConnectCall(accepted) => AfterConnect(c, accepted)
    case ReceiveCall(incoming) => AfterReceive(c, incoming)
    case DisconnectCall(close) => AfterDisconnect(c, close)
    case SendCall(_) => c
  }

  function Run(c: ConnState, calls: seq<ClientCall>): ConnState
    decreases |calls|
  {
    if calls == [] then c else Run(Step(c, calls[0]), calls[1..])
  }

  /** The frames a run of calls puts on the wire. */
  function Transmitted(c: ConnState, calls: seq<ClientCall>): seq<Msg>
    decreases |calls|
  {
    if calls == [] then []
    else
      (if calls[0].SendCall? then Deliver(c, calls[0].req) else [])
      + Transmitted(Step(c, calls[0]), calls[1..])
  }

  /** Only a connect whose handshake returned raises the flag: from a lowered flag, a run without one
      ends with the flag lowered and transmits nothing. */
  lemma {:induction false} FlagRaisedOnlyByConnect(c: ConnState, calls: seq<ClientCall>)
    requires !c.isConnected
    requires ConnectCall(true) !in calls
    ensures !Run(c, calls).isConnected
    ensures Transmitted(c, calls) == []
    decreases |calls|
  {
    if calls != [] {
      assert calls == [calls[0]] + calls[1..];
      if calls[0].ReceiveCall? {
        ReceiveLowersFlag(c, calls[0].incoming);
      }
      FlagRaisedOnlyByConnect(Step(c, calls[0]), calls[1..]);
    }
  }

  /** Every frame a run of calls transmits is in wire shape. */
  lemma {:induction false} TransmittedFramesAreWireValid(c: ConnState, calls: seq<ClientCall>)
    ensures forall f :: f in Transmitted(c, calls) ==> WireValid(f)
    decreases |calls|
  {
    if calls != [] {
      TransmittedFramesAreWireValid(Step(c, calls[0]), calls[1..]);
    }
  }

  /** The client: `_isConnected`, `_webSocket` (only its state) and the frames it has written. */
  class WebSocketHidClient {
    var isConnected: bool
    var socket: Option<SocketState>
    ghost var sent: seq<Msg>

    constructor ()
      ensures Conn() == Initial && sent == []
    {
      isConnected := false;
      socket := None;
      sent := [];
    }

    function Conn(): ConnState
      reads this
    {
      ConnState(isConnected, socket)
    }

    predicate IsConnected()
      reads this
    {
      Connected(Conn())
    }

    /** `ConnectAsync`; `accepted` is whether the handshake returns instead of throwing. */
    method Connect(accepted: bool) returns (ok: bool)
      modifies this
      ensures ok == accepted
      ensures Conn() == AfterConnect(old(Conn()), accepted) && sent == old(sent)
    {
      socket := Some(Fresh);
      if !accepted {
        socket := Some(Closed);
        return false;
      }
      socket := Some(Open);
      isConnected := true;
      ok := true;
    }

    /** `ReceiveLoop`, fed the frames (or the exception) the socket delivers. */
    method ReceiveLoop(incoming: seq<Inbound>)
      modifies this
      ensures Conn() == AfterReceive(old(Conn()), incoming) && sent == old(sent)
    {
      var i := 0;
      while i < |incoming| && socket == Some(Open)
        invariant 0 <= i <= |incoming|
        invariant AfterReceive(old(Conn()), incoming) == AfterReceive(Conn(), incoming[i..])
        invariant sent == old(sent)
      {
        assert incoming[i..][1..] == incoming[i + 1..];
        match incoming[i]
        case DataFrame =>
          i := i + 1;
        case CloseFrame(reply) =>
          socket := Some(AfterClose(reply));
          isConnected := false;
          return;
        case Fault(leftIn) =>
          socket := Some(leftIn);
          isConnected := false;
          return;
      }
    }

    /** `SendMouseAsync`: dropped unless connected; axes and wheel clamped to [-127, 127]. */
    method SendMouse(x: int, y: int, buttons: byte, wheel: int)
      modifies this
      ensures Conn() == old(Conn())
      ensures sent == old(sent) + Deliver(old(Conn()), Mouse(x, y, buttons, wheel))
    {
      if !IsConnected() {
        return;
      }
      var cx := Clamp(x, -127, 127);
      var cy := Clamp(y, -127, 127);
      var cw := Clamp(wheel, -127, 127);
      SendJson(Mouse(cx, cy, buttons, cw));
    }

    /** `SendKeyboardAsync`: dropped unless connected; the keycodes go out in six slots. */
    method SendKeyboard(modifiers: byte, keycodes: seq<byte>)
      modifies this
      ensures Conn() == old(Conn())
      ensures sent == old(sent) + Deliver(old(Conn()), Keyboard(modifiers, keycodes))
    {
      if !IsConnected() {
        return;
      }
      var keyArray := FillKeyArray(keycodes);
      assert keyArray == KeyArray(keycodes);
      SendJson(Keyboard(modifiers, keyArray));
    }

    /** `SendJsonAsync`: writes the frame only while the socket is open. */
    method SendJson(frame: Msg)
      modifies this`sent
      ensures sent == old(sent) + (if socket == Some(Open) then [frame] else [])
    {
      if socket != Some(Open) {
        return;
      }
      sent := sent + [frame];
    }

    /** `DisconnectAsync`; `close` is how the close handshake ends. */
    method Disconnect(close: CloseOutcome) returns (ok: bool)
      modifies this
      ensures ok <==> close.CloseReturns? || old(socket) != Some(Open)
      ensures Conn() == AfterDisconnect(old(Conn()), close) && sent == old(sent)
    {
      if socket == Some(Open) {
        socket := Some(AfterClose(close));
        if close.CloseThrows? {
          return false;
        }
      }
      isConnected := false;
      ok := true;
    }
  }

  /** The loop of `SendKeyboardAsync`: copies the first min(|keycodes|, 6) codes into a zeroed array of six. */
  method FillKeyArray(keycodes: seq<byte>) returns (keyArray: seq<int>)
    ensures |keyArray| == 6
    ensures forall i :: 0 <= i < 6 ==> keyArray[i] == if i < |keycodes| then keycodes[i] else 0
  {
    var a := new int[6](_ => 0);
    var n := if |keycodes| < 6 then |keycodes| else 6;
    for i := 0 to n
      invariant forall j :: 0 <= j < i ==> a[j] == keycodes[j]
      invariant forall j :: i <= j < 6 ==> a[j] == 0
    {
      a[i] := keycodes[i];
    }
    keyArray := a[..];
  }
}
