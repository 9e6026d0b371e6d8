# Remote HID controller: input capture and report transport

A Dafny model of the core of a Windows controller that forwards local keyboard and mouse input to a remote
USB HID keyboard/mouse emulator over a WebSocket. The model covers two parts.

- **The capture window** (`RemoteHIDController/MainWindow.xaml.cs`). It tracks whether input is being
  captured, which keys are held, the mouse button byte, the pointer baseline and the one-shot "ignore the next
  move" flag. For every input event it hands zero or more reports to the WebSocket client.
- **The WebSocket client** (`RemoteHIDController/WebSocketHIDClient.cs`). Every send is gated on the
  connection. Mouse axes and wheel are clamped to [-127, 127], and key codes are packed into exactly six slots.
  The `_isConnected` flag changes only on connect, on the receive loop seeing a Close frame or an exception,
  and on disconnect.

Files:

- `wire.dfy` (module `Wire`): the report datatype `Msg` (`Mouse(x, y, b, w)` with JSON tag "m",
  `Keyboard(m, k)` with tag "k"), `byte`, `Option` and `Distinct`.
- `hid_client.dfy` (module `HidClient`): the client. Normalisation, the send gate and the connection
  transitions are pure functions. The class `WebSocketHidClient` holds `isConnected`, the socket state and a
  ghost log `sent` of the frames written to the socket, and its methods are proved against those functions.
  `FillKeyArray` is the `for` loop that fills the six-slot array.
- `keyboard_report.dfy` (module `KeyboardReport`): the keyboard report of `SendKeyboardStateSync`, as a pure
  pipeline. It builds the modifier flags from the left/right pairs, drops the modifier keys, maps the rest
  through the key table, drops code 0 and takes 6.
- `capture.dfy` (module `Capture`): the class `MainWindow` with the handlers. It keeps a ghost log `requests`
  of the reports it hands to the client. Each handler's postcondition gives the whole new state and the
  frames the client writes: the reports are normalised and written only if the client is connected.

Modelling choices:

- `_pressedKeys` is a `HashSet<Key>`, whose enumeration order .NET does not document. Yet which keys survive
  `Take(6)` depends on that order. The model keeps the set as a duplicate-free sequence: a press appends the
  key, and a release removes it where it stands (`Without`, `WithoutInPlace`). This order is a modelling
  choice, not a property of the source.
- `HIDKeyMapper` (its key table and modifier bit layout) is not part of this model. The window holds it as a
  `KeyMapper` value made of two arbitrary total functions: a key's code (0 for none) and the modifier byte for
  the ctrl/shift/alt/win flags. Every property holds for every such table, except that the distinctness
  lemmas assume a table that gives distinct keys distinct nonzero codes. `ExampleTrace` fixes a few table
  values. `KeycodesRepeatSharedCode` shows that two keys sharing a code put it in the list twice.
- C#'s `e.Delta / 120` truncates toward zero, but Dafny's `/` is Euclidean. The wheel uses `TruncDiv`:
  -60 gives 0 notches, not -1.
- The network's answers are parameters:
  - `Connect(accepted)` says whether the handshake returns.
  - `ReceiveLoop(incoming)` is fed what the socket delivers: data frames; a Close frame, together with
    how the answering close handshake ends; or an exception, together with the socket state it leaves.
  - `Disconnect(close)` says whether the close handshake returns or throws. When it throws, the socket
    state it leaves behind is part of the parameter, because the client's code does not determine it.
- A failed `ConnectAsync` is modelled as leaving the socket `Closed`. The code never resets `_isConnected` on
  that path, and the model does not either.
- The model follows the code as written:
  - `DisconnectAsync` lowers the flag only when the close handshake does not throw. A throwing `CloseAsync`
    (WebSocketHIDClient.cs:118) skips `_isConnected = false`. `IsConnected` then stays true exactly when the
    flag was set and the failed close left the socket Open (`AfterDisconnect`).
  - The key codes of one report are distinct only when the key table gives distinct keys distinct nonzero
    codes (`KeycodesDistinct`, `WireReportDistinct`). The window itself only keeps the held keys duplicate-free.
  - The connection state is the flag `_isConnected` together with the socket's `WebSocketState`.
  - `StopCapture` sends `Keyboard(0, [])` directly (MainWindow.xaml.cs:326), not through the key table.

## Model

| member | source | states |
|---|---|---|
| `HidClient.Connected` | RemoteHIDController/WebSocketHIDClient.cs:16-16 | the `IsConnected` property: the flag is set and the current socket is Open |
| `HidClient.KeyArray` | RemoteHIDController/WebSocketHIDClient.cs:84-88 | the six-slot array: a list of at most six codes is padded with zeros, and a longer list is cut to its first six |
| `Wire.Tag` | RemoteHIDController/WebSocketHIDClient.cs:69-92 | the JSON tag of a report: "m" for a mouse report (line 69) and "k" for a keyboard report (line 92) |
| `HidClient.WireValid` | RemoteHIDController/WebSocketHIDClient.cs:62-95 | the shape a frame has on the wire: mouse axes and wheel within [-127, 127], or exactly six key slots |
| `HidClient.ClampAxis` | RemoteHIDController/WebSocketHIDClient.cs:63-65 | the clamp applied to x, y and wheel: `Clamp` to [-127, 127] |
| `HidClient.Clamp` | RemoteHIDController/WebSocketHIDClient.cs:63-65 | `Math.Clamp` gives a value in [min, max], leaves in-range values unchanged, and gives the point of the range nearest the input |
| `HidClient.Normalize` | RemoteHIDController/WebSocketHIDClient.cs:62-95 | a frame is in wire shape and keeps its tag ("m" or "k"). Mouse buttons and the modifier byte pass through unchanged, and in-range axes and wheel are unchanged. Key slot i is `keycodes[i]` for i < min(len, 6) and 0 otherwise, so codes past the sixth are dropped |
| `HidClient.NormalizeFixesWireFrames` | RemoteHIDController/WebSocketHIDClient.cs:62-95 | a frame already in wire shape is sent as it is, so normalising is idempotent |
| `HidClient.ClampSaturates` | RemoteHIDController/WebSocketHIDClient.cs:63-65 | 1000 is sent as 127 and -1000 as -127, on x, y and wheel |
| `HidClient.Deliver` | RemoteHIDController/WebSocketHIDClient.cs:58-98 | one send writes nothing unless `IsConnected` (flag set and socket Open). Otherwise it writes exactly the normalised report |
| `HidClient.DeliverAll` | RemoteHIDController/WebSocketHIDClient.cs:58-98 | a batch of sends on an unchanged connection writes nothing when not connected, and otherwise one normalised frame per request, in order |
| `HidClient.AfterConnect` | RemoteHIDController/WebSocketHIDClient.cs:18-28 | after connect, `IsConnected` holds exactly when the handshake returned. The flag is raised only then; a failed handshake leaves it as it was |
| `HidClient.AfterReceive` | RemoteHIDController/WebSocketHIDClient.cs:30-56 | the loop reads while the socket is Open. Data frames are skipped. A Close frame is answered with a close handshake and the flag is lowered, also when that handshake throws, since the exception handler lowers it. An exception lowers the flag. In both cases the socket is left in the state the handshake or the exception left it in. Running out of frames leaves the state as it is |
| `HidClient.ReceiveLowersFlag` | RemoteHIDController/WebSocketHIDClient.cs:30-56 | the receive loop never raises the flag. While the socket is open, the flag ends lowered exactly when a Close frame or an exception arrives (or it was already lowered). A loop on a socket that is not open changes nothing |
| `HidClient.AfterClose` | RemoteHIDController/WebSocketHIDClient.cs:43-46 | the socket state a close handshake leaves: Closed when it returns, and the given state when it throws (also lines 118-121) |
| `HidClient.AfterDisconnect` | RemoteHIDController/WebSocketHIDClient.cs:114-124 | when the close returns or the socket was not Open, the flag is lowered and the client is not `IsConnected`. When an Open socket's close throws, the flag keeps its value and the socket is in whatever state the failed close left. A disconnect never makes a client `IsConnected` that was not |
| `HidClient.DisconnectIdempotent` | RemoteHIDController/WebSocketHIDClient.cs:114-124 | a second disconnect after a completed one changes nothing, whatever its close would have done |
| `HidClient.FlagRaisedOnlyByConnect` | RemoteHIDController/WebSocketHIDClient.cs:23-24 | from a lowered flag, any run of receive, disconnect, send and failed-connect calls ends with the flag lowered and writes no frame: only a returned connect raises it |
| `HidClient.TransmittedFramesAreWireValid` | RemoteHIDController/WebSocketHIDClient.cs:58-98 | every frame any run of client calls writes is clamped (mouse) or has exactly six key slots (keyboard) |
| `HidClient.WebSocketHidClient.constructor` | RemoteHIDController/WebSocketHIDClient.cs:12-14 | a new client is not connected, has no socket and has written nothing |
| `HidClient.WebSocketHidClient.Connect` | RemoteHIDController/WebSocketHIDClient.cs:18-28 | the new connection state is `AfterConnect` of the old one. Nothing is written. It reports whether the handshake returned |
| `HidClient.WebSocketHidClient.ReceiveLoop` | RemoteHIDController/WebSocketHIDClient.cs:30-56 | the loop, run over the frames the socket delivers, leaves the state `AfterReceive` gives and writes nothing |
| `HidClient.WebSocketHidClient.SendMouse` | RemoteHIDController/WebSocketHIDClient.cs:58-77 | the connection is unchanged. The frames written grow by `Deliver` of the mouse report: nothing when not connected, else the clamped report |
| `HidClient.WebSocketHidClient.SendKeyboard` | RemoteHIDController/WebSocketHIDClient.cs:79-98 | the connection is unchanged. The frames written grow by `Deliver` of the keyboard report: nothing when not connected, else the six-slot report |
| `HidClient.WebSocketHidClient.SendJson` | RemoteHIDController/WebSocketHIDClient.cs:100-112 | a frame is written only while the socket is Open |
| `HidClient.WebSocketHidClient.Disconnect` | RemoteHIDController/WebSocketHIDClient.cs:114-124 | the new state is `AfterDisconnect` of the old one. It fails only when an Open socket's close throws, and writes nothing |
| `HidClient.FillKeyArray` | RemoteHIDController/WebSocketHIDClient.cs:84-88 | the loop yields exactly six entries. Entry i is `keycodes[i]` for i < min(len, 6) and 0 otherwise, so an empty input gives six zeros |
| `KeyboardReport.IsModifier` | RemoteHIDController/MainWindow.xaml.cs:281-284 | the eight keys the first `Where` drops: left and right Ctrl, Shift and Alt, LWin and RWin |
| `KeyboardReport.Reported` | RemoteHIDController/MainWindow.xaml.cs:281-286 | a held key yields a code exactly when it is not one of those eight keys and its code is nonzero |
| `KeyboardReport.KeycodesRepeatSharedCode` | RemoteHIDController/MainWindow.xaml.cs:280-288 | the pipeline does not remove duplicates: two held keys that the table maps to the same code put that code in the list twice |
| `KeyboardReport.Flags` | RemoteHIDController/MainWindow.xaml.cs:273-276 | each of ctrl, shift, alt and win is set when either key of its left/right pair is held |
| `KeyboardReport.MappedCodes` | RemoteHIDController/MainWindow.xaml.cs:280-286 | before `Take(6)`, every code is nonzero and is the code of a held non-modifier key. Every held reported key's code is present |
| `KeyboardReport.Keycodes` | RemoteHIDController/MainWindow.xaml.cs:280-288 | the key list has at most six entries, none of them 0, each the code of a held key that is not one of the eight modifier keys |
| `KeyboardReport.Report` | RemoteHIDController/MainWindow.xaml.cs:278-295 | the keyboard report handed to the client: the table's modifier byte for `Flags`, and `Keycodes` |
| `KeyboardReport.KeycodesKeepAllUpToSix` | RemoteHIDController/MainWindow.xaml.cs:280-288 | while at most six keys are reported, every held non-modifier key with a code is in the list |
| `KeyboardReport.MappedCodesAppend` | RemoteHIDController/MainWindow.xaml.cs:280-286 | holding one more key extends the filtered, mapped codes by its code if it is reported, and leaves them unchanged otherwise |
| `KeyboardReport.KeycodesAfterPress` | RemoteHIDController/MainWindow.xaml.cs:280-288 | pressing a key appends its code when it is reported and fewer than six codes are listed. A modifier, an unmapped key, or any key once six are listed leaves the list unchanged |
| `KeyboardReport.MappedCodesDistinct` | RemoteHIDController/MainWindow.xaml.cs:280-286 | held keys without duplicates and a table that gives distinct keys distinct codes yield no code twice |
| `KeyboardReport.KeycodesDistinct` | RemoteHIDController/MainWindow.xaml.cs:280-288 | the same for the list after `Take(6)` |
| `KeyboardReport.Without` | RemoteHIDController/MainWindow.xaml.cs:177-177 | removing a key leaves exactly the other keys and keeps the set duplicate-free, one shorter if the key was held. Removing an absent key changes nothing |
| `KeyboardReport.WithoutInPlace` | RemoteHIDController/MainWindow.xaml.cs:177-177 | in a duplicate-free sequence the key is removed where it stands and the others keep their order |
| `KeyboardReport.ReleaseOneOfPair` | RemoteHIDController/MainWindow.xaml.cs:273-273 | with LeftCtrl and RightCtrl both held, releasing either still reports ctrl. Releasing both clears it |
| `Capture.EffectiveKey` | RemoteHIDController/MainWindow.xaml.cs:156-156 | the key a key event stands for: its `SystemKey` when the key is `System`, else the key itself (also line 173) |
| `Capture.WinKey` | RemoteHIDController/MainWindow.xaml.cs:119-119 | a hooked Windows-key code: 0x5B is LWin, and otherwise RWin (also line 129) |
| `Capture.ButtonMask` | RemoteHIDController/MainWindow.xaml.cs:298-308 | the button byte is at most 7, with bit 0, 1 and 2 set exactly when left, right and middle are pressed |
| `Capture.TruncDiv` | RemoteHIDController/MainWindow.xaml.cs:261-261 | integer division rounding toward zero: q·d ≤ a < q·d + d for a ≥ 0, and q·d − d < a ≤ q·d for a < 0 |
| `Capture.WheelRoundsTowardZero` | RemoteHIDController/MainWindow.xaml.cs:261-261 | a wheel delta of -60 is 0 notches where Euclidean division gives -1. -240 is -2 notches and 179 is 1 |
| `Capture.NeutralFrames` | RemoteHIDController/MainWindow.xaml.cs:324-328 | on a live connection, stopping writes a keyboard frame of modifier 0 and six zero slots, then the all-zero mouse frame |
| `Capture.WireReportWellFormed` | RemoteHIDController/MainWindow.xaml.cs:273-295 | for any key table, the keyboard frame for the held keys carries the table's modifier byte for the four pair flags, then the listed codes padded with zeros to six slots |
| `Capture.WireReportDistinct` | RemoteHIDController/MainWindow.xaml.cs:280-295 | with a set of held keys and a table that gives distinct keys distinct codes, no nonzero code occupies two slots of the frame |
| `Capture.ExampleTrace` | RemoteHIDController/MainWindow.xaml.cs:273-288 | with a key mapped to 4 and ctrl mapped to modifier 1: pressing it gives m=0, k=[4,0,0,0,0,0]; then pressing LeftCtrl gives m=1, k=[4,0,0,0,0,0]; then releasing the key gives m=1, k=[0,0,0,0,0,0] |
| `Capture.MainWindow.constructor` | RemoteHIDController/MainWindow.xaml.cs:14-19 | a new window is not capturing, holds nothing, does not ignore moves and has sent nothing |
| `Capture.MainWindow.Center` | RemoteHIDController/MainWindow.xaml.cs:248-250 | the baseline after a recentre: half the capture area's width and height |
| `Capture.MainWindow.Issued` | RemoteHIDController/MainWindow.xaml.cs:199-199 | reports reach the client only when the window has one (the null checks of lines 199, 211, 227, 263, 271 and 324) |
| `Capture.MainWindow.SendKeyboardState` | RemoteHIDController/MainWindow.xaml.cs:269-296 | exactly one keyboard report is handed to the client (when there is one): the modifier byte of the pair flags and the key list of the held keys |
| `Capture.MainWindow.SendKeyboard` | RemoteHIDController/MainWindow.xaml.cs:324-326 | a keyboard report is handed to the client only when the window has one |
| `Capture.MainWindow.SendMouse` | RemoteHIDController/MainWindow.xaml.cs:199-202 | a mouse report is handed to the client only when the window has one |
| `Capture.MainWindow.KeyDown` | RemoteHIDController/MainWindow.xaml.cs:144-165 | the handler keeps the invariant: the held keys are a set, and nothing is held while not capturing. Not capturing: nothing changes and nothing is sent. Escape: stops the capture. A repeat or an already-held key: nothing changes and nothing is sent. Otherwise the key is appended and exactly one report for the new set is sent |
| `Capture.MainWindow.KeyUp` | RemoteHIDController/MainWindow.xaml.cs:167-182 | while capturing, a held key is removed and exactly one report for the new set is sent. Releasing a key that is not held, or any release when not capturing, changes nothing and sends nothing |
| `Capture.MainWindow.HookCallback` | RemoteHIDController/MainWindow.xaml.cs:106-142 | the key is blocked exactly when nCode ≥ 0, capturing, and VK 0x5B or 0x5C. On key-down (incl. system) the Windows key is added and reported only if absent. On key-up it is removed and reported only if present. Everything else is passed on untouched |
| `Capture.MainWindow.UpdateMouseButtons` | RemoteHIDController/MainWindow.xaml.cs:298-308 | the mask is rebuilt from zero: the result is `ButtonMask` of the event alone, whatever the previous value |
| `Capture.MainWindow.CenterMouse` | RemoteHIDController/MainWindow.xaml.cs:237-251 | the baseline becomes the capture area's centre and the next move is to be ignored |
| `Capture.MainWindow.ResumeMouseMoves` | RemoteHIDController/MainWindow.xaml.cs:252-254 | the deferred step clears the ignore flag |
| `Capture.MainWindow.MouseDown` | RemoteHIDController/MainWindow.xaml.cs:184-203 | starts capturing (recentring) if not yet capturing. The button byte is rebuilt and one zero-motion mouse report is sent with it. Held keys are unchanged |
| `Capture.MainWindow.MouseUp` | RemoteHIDController/MainWindow.xaml.cs:205-215 | not capturing: nothing changes or is sent. Otherwise the button byte is rebuilt and one zero-motion mouse report is sent with it |
| `Capture.MainWindow.MouseMove` | RemoteHIDController/MainWindow.xaml.cs:217-235 | ignored when not capturing or while the ignore flag is set. A zero delta sends nothing. A nonzero delta sends Mouse(dx, dy, buttons, 0), then sets the baseline to the centre and arms the flag |
| `Capture.MainWindow.MouseWheel` | RemoteHIDController/MainWindow.xaml.cs:257-267 | while capturing, sends Mouse(0, 0, buttons, delta/120 truncated toward zero) and changes nothing else. Nothing is carried over between calls. Nothing is sent when not capturing |
| `Capture.MainWindow.StopCapture` | RemoteHIDController/MainWindow.xaml.cs:310-329 | when capturing: ends not capturing, with no keys and buttons 0. It then sends exactly Keyboard(0, []) and Mouse(0, 0, 0, 0), even if nothing was held. When not capturing it does nothing |

## Left out

- Win32 calls (`SetWindowsHookEx`, `UnhookWindowsHookEx`, `CallNextHookEx`, `GetModuleHandle`, `SetCursorPos`, `PointToScreen`): these are operating-system calls. The hook is a source of (nCode, vk, message) events, and passing a key on is the result `PassedOn`.
- `Dispatcher.InvokeAsync` clearing `_ignoringMouseMove` (MainWindow.xaml.cs:253): it is deferred scheduling, so it is the explicit step `ResumeMouseMoves`, which the caller orders.
- Floating point and resizing: WPF `Point`s, `ActualWidth / 2` and the `(int)` casts of double differences are modelled with integer positions and a centre of (width / 2, height / 2), so half-unit centres are lost. The capture area's size is a constant of the window, while the code reads `ActualWidth`/`ActualHeight` at every recentre (MainWindow.xaml.cs:242-243, 249-250), so a resize of the window is not modelled.
- 32-bit `int` overflow in the mouse deltas and the wheel division is not modelled: integers are unbounded. Real deltas are far below 2^31.
- `ClientWebSocket` I/O, async/await, `Task.Run(ReceiveLoop)`, cancellation tokens and `Dispose`: the network and concurrency are not modelled. The receive loop is a method over the frames it is given. How it interleaves with sends, with disconnect and with a reconnect that replaces `_webSocket` is not modelled. Each window handler runs as one atomic step, while the code's handlers yield at their awaits. A move that arrives while `CaptureArea_MouseMove` awaits its send (MainWindow.xaml.cs:229) is measured from the old baseline with the ignore flag still clear, because the recentre at line 233 has not yet run. Other handlers can also run between the two awaited sends of `StopCapture` (lines 326-327).
- `HidClient.WebSocketHidClient.SendJson`: a `SendAsync` that throws (WebSocketHIDClient.cs:107-111) is not modelled. Every send on an Open socket is logged as written. In the code the exception escapes through the awaited sends of the mouse handlers and `StopCapture` (MainWindow.xaml.cs:201, 213, 229, 265, 326-327).
- `Capture.MainWindow.StopCapture`: the guarantee that both neutral reports are sent assumes no send throws. In the code a throwing keyboard send at MainWindow.xaml.cs:326 skips the neutral mouse report at line 327.
- `HidClient.AfterClose`: a close handshake that returns is taken to leave the socket `Closed`, which is what `ClientWebSocket` does. The code itself only lowers the flag. This holds for the Close-frame reply in the receive loop (WebSocketHIDClient.cs:43) and for `DisconnectAsync` (line 118). A close or receive that throws leaves a socket state the model takes as a parameter.
- `HidClient.AfterConnect`: a handshake that throws is taken to leave the new socket `Closed`, which is what `ClientWebSocket` does. The code itself does not show that state.
- `JsonSerializer` and UTF-8 encoding: these are library calls. The model stops at the `Msg` datatype and its tag.
- `HIDKeyMapper`: it is not part of this model. Its table and modifier bit layout are an arbitrary `KeyMapper`.
- `Window_Loaded`, `Window_Closing`, `DisconnectButton_Click`: these are window wiring. `_hidClient` is fixed for the window's life, possibly null.
- `RemoteHIDController/AppSettings.cs` and `RemoteHIDController/ConnectWindow.xaml.cs`: these are settings file I/O and dialog UI.
- `Debug.WriteLine`, status and capture text, cursor shape, mouse capture and focus: these are UI side effects with no bearing on the reports.
