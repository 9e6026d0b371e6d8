/** The capture window: which keys and buttons are held, where the pointer baseline is, and the
    reports each input event makes the window hand to the WebSocket client. */
module Capture {
  import opened Wire
  import opened KeyboardReport
  import opened HidClient

  /** A pointer position inside the capture area, in whole device units. */
  datatype Point = Point(x: int, y: int)

  /** A key event as WPF delivers it: `SystemKey` carries the real key when `Key` is `System`. */
  datatype KeyEvent = KeyEvent(key: Key, systemKey: Key, isRepeat: bool)

  /** The physical button states a mouse button event carries. */
  datatype ButtonStates = ButtonStates(left: bool, right: bool, middle: bool)

  /** What the low-level hook returns: 1 (the key is kept from the shell) or the next hook's answer. */
  datatype HookResult = Blocked | PassedOn

  const VK_LWIN := 0x5B
  const VK_RWIN := 0x5C
  const WM_KEYDOWN := 0x0100
  const WM_KEYUP := 0x0101
  const WM_SYSKEYDOWN := 0x0104
  const WM_SYSKEYUP := 0x0105

  /** Wheel delta of one notch. */
  const WheelNotch := 120

  /** The key the window tracks for an event. */
  function EffectiveKey(e: KeyEvent): Key
  {
    if e.key == System then e.systemKey else e.key
  }

  /** The Windows key a hooked virtual-key code stands for. */
  function WinKey(vkCode: int): Key
  {
    if vkCode == VK_LWIN then LWin else RWin
  }

  /** The button byte: bit 0 left, bit 1 right, bit 2 middle, and nothing else. */
  function ButtonMask(b: ButtonStates): (mask: byte)
    ensures mask <= 7
    ensures mask % 2 == 1 <==> b.left
    ensures mask / 2 % 2 == 1 <==> b.right
    ensures mask / 4 % 2 == 1 <==> b.middle
  {
    (if b.left then 1 else 0) + (if b.right then 2 else 0) + (if b.middle then 4 else 0)
  }

  /** C#'s `/` on `int`, which truncates toward zero (Dafny's `/` is Euclidean). */
  function TruncDiv(a: int, d: int): (q: int)
    requires d > 0
    ensures 0 <= a ==> 0 <= q && q * d <= a < q * d + d
    ensures a < 0 ==> q <= 0 && q * d - d < a <= q * d
  {
    if 0 <= a then a / d else -((-a) / d)
  }

  /** Where truncation and Euclidean division part: half a notch backwards is no notch at all. */
  lemma WheelRoundsTowardZero()
    ensures TruncDiv(-60, WheelNotch) == 0 && -60 / WheelNotch == -1
    ensures TruncDiv(-240, WheelNotch) == -2 && TruncDiv(179, WheelNotch) == 1
  {
  }

  /** The two reports that leave the remote device with nothing held. */
  const NeutralReports: seq<Msg> := [Keyboard(0, []), Mouse(0, 0, 0, 0)]

  /** On a live connection stopping puts an all-zero keyboard frame and an all-zero mouse frame on the wire. */
  lemma NeutralFrames(c: ConnState)
    requires Connected(c)
    ensures DeliverAll(c, NeutralReports) == [Keyboard(0, [0, 0, 0, 0, 0, 0]), Mouse(0, 0, 0, 0)]
  {
    assert Normalize(Keyboard(0, [])).k == [0, 0, 0, 0, 0, 0];
  }

  /** Every keyboard report the window sends, once on the wire, carries the table's modifier byte and
      the listed codes followed by zeros, six slots in all, whatever the key table. */
  lemma WireReportWellFormed(mapper: KeyMapper, pressed: seq<Key>)
    ensures var frame := Normalize(Report(mapper, pressed));
      |frame.k| == 6 && frame.m == mapper.modifiers(Flags(pressed)) &&
      frame.k == Keycodes(pressed, mapper.keycode) + seq(6 - |Keycodes(pressed, mapper.keycode)|, _ => 0)
  {
    var codes := Keycodes(pressed, mapper.keycode);
    assert Normalize(Report(mapper, pressed)).k == codes + seq(6 - |codes|, _ => 0);
  }

  /** With held keys that form a set and a table that gives distinct keys distinct codes, no nonzero
      code appears in two slots of the keyboard frame. */
  lemma WireReportDistinct(mapper: KeyMapper, pressed: seq<Key>)
    requires Distinct(pressed) && CodesInjective(mapper.keycode)
    ensures var frame := Normalize(Report(mapper, pressed));
      forall i, j :: 0 <= i < j < 6 && frame.k[i] != 0 ==> frame.k[i] != frame.k[j]
  {
    KeycodesDistinct(pressed, mapper.keycode);
    WireReportWellFormed(mapper, pressed);
  }

  /** An example session, with a table that maps some key to 4 and ctrl alone to 1: press that key,
      press LeftCtrl, then release the key. */
  lemma ExampleTrace(mapper: KeyMapper, a: Key)
    requires !IsModifier(a) && mapper.keycode(a) == 4
    requires mapper.modifiers(ModifierFlags(false, false, false, false)) == 0
    requires mapper.modifiers(ModifierFlags(true, false, false, false)) == 1
    ensures Normalize(Report(mapper, [a])) == Keyboard(0, [4, 0, 0, 0, 0, 0])
    ensures Normalize(Report(mapper, [a, LeftCtrl])) == Keyboard(1, [4, 0, 0, 0, 0, 0])
    ensures Normalize(Report(mapper, Without([a, LeftCtrl], a))) == Keyboard(1, [0, 0, 0, 0, 0, 0])
  {
    assert Flags([a]) == ModifierFlags(false, false, false, false);
    assert Keycodes([a], mapper.keycode) == [4];
    assert Flags([a, LeftCtrl]) == ModifierFlags(true, false, false, false);
    KeycodesAfterPress([a], LeftCtrl, mapper.keycode);
    assert [a] + [LeftCtrl] == [a, LeftCtrl];
    assert Without([a, LeftCtrl], a) == [LeftCtrl];
    assert Flags([LeftCtrl]) == ModifierFlags(true, false, false, false);
    assert Keycodes([LeftCtrl], mapper.keycode) == [];
  }

  class MainWindow {
    /** `_hidClient`; `null` when the window has no client. */
    const client: WebSocketHidClient?
    /** `HIDKeyMapper`. */
    const mapper: KeyMapper
    /** The capture area's size. */
    const areaWidth: nat
    const areaHeight: nat

    var isCapturing: bool
    /** `_pressedKeys`, a set kept in the order keys were pressed. */
    var pressedKeys: seq<Key>
    var currentMouseButtons: byte
    var lastMousePosition: Point
    var ignoringMouseMove: bool
    /** The reports the window has handed to the client, in order. */
    ghost var requests: seq<Msg>

    /** Held keys are a set; buttons fit three bits; nothing is held while not capturing. */
    ghost predicate Valid()
      reads this
    {
      Distinct(pressedKeys) && currentMouseButtons <= 7 &&
      (!isCapturing ==> pressedKeys == [] && currentMouseButtons == 0)
    }

    constructor (client: WebSocketHidClient?, mapper: KeyMapper, areaWidth: nat, areaHeight: nat)
      ensures Valid() && !isCapturing && !ignoringMouseMove && requests == []
      ensures this.client == client && this.mapper == mapper
      ensures this.areaWidth == areaWidth && this.areaHeight == areaHeight
    {
      this.client := client;
      this.mapper := mapper;
      this.areaWidth := areaWidth;
      this.areaHeight := areaHeight;
      isCapturing := false;
      pressedKeys := [];
      currentMouseButtons := 0;
      lastMousePosition := Point(0, 0);
      ignoringMouseMove := false;
      requests := [];
    }

    /** The centre of the capture area. */
    function Center(): Point
    {
      Point(areaWidth / 2, areaHeight / 2)
    }

    /** The calls made on the client for a batch of reports: none when there is no client. */
    function Issued(reqs: seq<Msg>): seq<Msg>
    {
      if client == null then [] else reqs
    }

    /** The window handed `reqs` to the client (when it has one), in order, and the client put on the wire
        whatever its gate lets through; the connection is untouched. */
    twostate predicate Sent(reqs: seq<Msg>)
      reads this, client
    {
      requests == old(requests) + Issued(reqs) &&
      (client != null ==>
        client.Conn() == old(client.Conn()) &&
        client.sent == old(client.sent) + DeliverAll(client.Conn(), reqs))
    }

    /** Nothing changed and nothing was sent. */
    twostate predicate Quiet()
      reads this, client
    {
      unchanged(this) && Sent([])
    }

    /** The pointer state (buttons, baseline, ignore flag) is as it was. */
    twostate predicate PointerUnchanged()
      reads this
    {
      currentMouseButtons == old(currentMouseButtons) &&
      lastMousePosition == old(lastMousePosition) &&
      ignoringMouseMove == old(ignoringMouseMove)
    }

    /** `key` was added to the held keys and one keyboard report for the new set was sent. */
    twostate predicate Added(key: Key)
      reads this, client
    {
      pressedKeys == old(pressedKeys) + [key] && isCapturing == old(isCapturing) &&
      PointerUnchanged() && Sent([Report(mapper, pressedKeys)])
    }

    /** `key` was taken out of the held keys and one keyboard report for the new set was sent. */
    twostate predicate Removed(key: Key)
      reads this, client
    {
      pressedKeys == Without(old(pressedKeys), key) && isCapturing == old(isCapturing) &&
      PointerUnchanged() && Sent([Report(mapper, pressedKeys)])
    }

    /** What `StopCapture` leaves: if capturing, no capture, nothing held, and the two neutral reports sent
        even when nothing was held; otherwise nothing at all. */
    twostate predicate Stopped()
      reads this, client
    {
      if old(isCapturing) then
        !isCapturing && pressedKeys == [] && currentMouseButtons == 0 &&
        lastMousePosition == old(lastMousePosition) && ignoringMouseMove == old(ignoringMouseMove) &&
        Sent(NeutralReports)
      else Quiet()
    }

    /** `SendKeyboardStateSync`: one keyboard report for the held keys. */
    method SendKeyboardState()
      modifies this`requests, client
      ensures Sent([Report(mapper, pressedKeys)])
    {
      if client == null {
        return;
      }
      var modifiers := mapper.modifiers(Flags(pressedKeys));
      var keycodes := Keycodes(pressedKeys, mapper.keycode);
      SendKeyboard(modifiers, keycodes);
    }

    /** A keyboard report through the client, when there is one. */
    method SendKeyboard(modifiers: byte, keycodes: seq<byte>)
      modifies this`requests, client
      ensures Sent([Keyboard(modifiers, keycodes)])
    {
      if client == null {
        return;
      }
      client.SendKeyboard(modifiers, keycodes);
      requests := requests + [Keyboard(modifiers, keycodes)];
    }

    /** A mouse report through the client, when there is one. */
    method SendMouse(x: int, y: int, buttons: byte, wheel: int)
      modifies this`requests, client
      ensures Sent([Mouse(x, y, buttons, wheel)])
    {
      if client == null {
        return;
      }
      client.SendMouse(x, y, buttons, wheel);
      requests := requests + [Mouse(x, y, buttons, wheel)];
    }

    /** `Window_PreviewKeyDown`: Escape stops the capture; a new, non-repeated key is added and reported;
        a repeat or an already-held key changes nothing. */
    method KeyDown(e: KeyEvent)
      requires Valid()
      modifies this, client
      ensures Valid()
      ensures !old(isCapturing) ==> Quiet()
      ensures old(isCapturing) && e.key == Escape ==> Stopped()
      ensures old(isCapturing) && e.key != Escape ==>
        if !e.isRepeat && EffectiveKey(e) !in old(pressedKeys) then Added(EffectiveKey(e)) else Quiet()
    {
      if isCapturing {
        if e.key == Escape {
          StopCapture();
          return;
        }
        var key := EffectiveKey(e);
        if !e.isRepeat && key !in pressedKeys {
          pressedKeys := pressedKeys + [key];
          SendKeyboardState();
        }
      }
    }

    /** `Window_PreviewKeyUp`: a held key is removed and reported; any other key changes nothing. */
    method KeyUp(e: KeyEvent)
      requires Valid()
      modifies this, client
      ensures Valid()
      ensures !old(isCapturing) ==> Quiet()
      ensures old(isCapturing) ==>
        if EffectiveKey(e) in old(pressedKeys) then Removed(EffectiveKey(e)) else Quiet()
    {
      if isCapturing {
        var key := EffectiveKey(e);
        if key in pressedKeys {
          pressedKeys := Without(pressedKeys, key);
          SendKeyboardState();
        }
      }
    }

    /** The Windows-key branch of `HookCallback`: while capturing, the two Windows keys follow the
        add-if-absent / remove-if-present rules and are always blocked; every other key passes on. */
    method HookCallback(nCode: int, vkCode: int, msg: int) returns (r: HookResult)
      requires Valid()
      modifies this, client
      ensures Valid()
      ensures r == Blocked <==> 0 <= nCode && old(isCapturing) && (vkCode == VK_LWIN || vkCode == VK_RWIN)
      ensures r == PassedOn ==> Quiet()
      ensures r == Blocked ==>
        var key := WinKey(vkCode);
        if (msg == WM_KEYDOWN || msg == WM_SYSKEYDOWN) && key !in old(pressedKeys) then Added(key)
        else if (msg == WM_KEYUP || msg == WM_SYSKEYUP) && key in old(pressedKeys) then Removed(key)
        else Quiet()
    {
      if 0 <= nCode && isCapturing {
        if vkCode == VK_LWIN || vkCode == VK_RWIN {
          var key := WinKey(vkCode);
          if msg == WM_KEYDOWN || msg == WM_SYSKEYDOWN {
            if key !in pressedKeys {
              pressedKeys := pressedKeys + [key];
              SendKeyboardState();
            }
          } else if msg == WM_KEYUP || msg == WM_SYSKEYUP {
            if key in pressedKeys {
              pressedKeys := Without(pressedKeys, key);
              SendKeyboardState();
            }
          }
          return Blocked;
        }
      }
      return PassedOn;
    }

    /** `UpdateMouseButtons`: the mask is rebuilt from zero out of the event's button states. */
    method UpdateMouseButtons(e: ButtonStates)
      modifies this`currentMouseButtons
      ensures currentMouseButtons == ButtonMask(e)
    {
      currentMouseButtons := 0;
      if e.left {
        currentMouseButtons := ((currentMouseButtons as bv8) | 0x01) as int;
      }
      if e.right {
        currentMouseButtons := ((currentMouseButtons as bv8) | 0x02) as int;
      }
      if e.middle {
        currentMouseButtons := ((currentMouseButtons as bv8) | 0x04) as int;
      }
    }

    /** `CenterMouseInWindow`, without the cursor move: the baseline becomes the centre and the next
        move event is to be ignored. */
    method CenterMouse()
      modifies this`lastMousePosition, this`ignoringMouseMove
      ensures lastMousePosition == Center() && ignoringMouseMove
    {
      ignoringMouseMove := true;
      lastMousePosition := Center();
    }

    /** The deferred dispatcher step that clears the ignore flag once the cursor has been repositioned. */
    method ResumeMouseMoves()
      modifies this`ignoringMouseMove
      ensures !ignoringMouseMove
    {
      ignoringMouseMove := false;
    }

    /** `CaptureArea_MouseDown`: starts capturing (centring the pointer) if needed, then reports the
        rebuilt button mask with no motion. */
    method MouseDown(e: ButtonStates)
      requires Valid()
      modifies this, client
      ensures Valid() && isCapturing && pressedKeys == old(pressedKeys)
      ensures currentMouseButtons == ButtonMask(e)
      ensures !old(isCapturing) ==> lastMousePosition == Center() && ignoringMouseMove
      ensures old(isCapturing) ==>
        lastMousePosition == old(lastMousePosition) && ignoringMouseMove == old(ignoringMouseMove)
      ensures Sent([Mouse(0, 0, ButtonMask(e), 0)])
    {
      if !isCapturing {
        isCapturing := true;
        CenterMouse();
      }
      UpdateMouseButtons(e);
      SendMouse(0, 0, currentMouseButtons, 0);
    }

    /** `CaptureArea_MouseUp`: while capturing, reports the rebuilt button mask with no motion. */
    method MouseUp(e: ButtonStates)
      requires Valid()
      modifies this, client
      ensures Valid()
      ensures !old(isCapturing) ==> Quiet()
      ensures old(isCapturing) ==>
        isCapturing && pressedKeys == old(pressedKeys) && currentMouseButtons == ButtonMask(e) &&
        lastMousePosition == old(lastMousePosition) && ignoringMouseMove == old(ignoringMouseMove) &&
        Sent([Mouse(0, 0, ButtonMask(e), 0)])
    {
      if !isCapturing {
        return;
      }
      UpdateMouseButtons(e);
      SendMouse(0, 0, currentMouseButtons, 0);
    }

    /** `CaptureArea_MouseMove`: ignored when not capturing or right after a recentre; otherwise a nonzero
        delta from the baseline is reported with the held buttons and the pointer is recentred. */
    method MouseMove(pos: Point)
      requires Valid()
      modifies this, client
      ensures Valid()
      ensures !old(isCapturing) || old(ignoringMouseMove) || pos == old(lastMousePosition) ==> Quiet()
      ensures old(isCapturing) && !old(ignoringMouseMove) && pos != old(lastMousePosition) ==>
        isCapturing && pressedKeys == old(pressedKeys) && currentMouseButtons == old(currentMouseButtons) &&
        lastMousePosition == Center() && ignoringMouseMove &&
        Sent([Mouse(pos.x - old(lastMousePosition).x, pos.y - old(lastMousePosition).y, currentMouseButtons, 0)])
    {
      if !isCapturing || ignoringMouseMove {
        return;
      }
      var deltaX := pos.x - lastMousePosition.x;
      var deltaY := pos.y - lastMousePosition.y;
      if deltaX != 0 || deltaY != 0 {
        SendMouse(deltaX, deltaY, currentMouseButtons, 0);
        CenterMouse();
      }
    }

    /** `CaptureArea_MouseWheel`: while capturing, reports the wheel in whole notches (truncated toward
        zero) with the held buttons and no motion. */
    method MouseWheel(delta: int)
      requires Valid()
      modifies this, client
      ensures Valid()
      ensures !old(isCapturing) ==> Quiet()
      ensures old(isCapturing) ==>
        isCapturing && pressedKeys == old(pressedKeys) && PointerUnchanged() &&
        Sent([Mouse(0, 0, currentMouseButtons, TruncDiv(delta, WheelNotch))])
    {
      if !isCapturing {
        return;
      }
      var wheel := TruncDiv(delta, WheelNotch);
      SendMouse(0, 0, currentMouseButtons, wheel);
    }

    /** `StopCapture`. */
    method StopCapture()
      requires Valid()
      modifies this, client
      ensures Valid() && Stopped()
    {
      if !isCapturing {
        return;
      }
      isCapturing := false;
      pressedKeys := [];
      currentMouseButtons := 0;
      SendKeyboard(0, []);
      SendMouse(0, 0, 0, 0);
    }
  }
}
