/** The keyboard report the capture window derives from the keys it holds: a modifier byte from the
    four left/right pairs, and the first six nonzero HID codes of the other keys, in the order held. */
module KeyboardReport {
  import opened Wire

  /** The logical keys the window distinguishes (WPF's `Key`); every other key is `Other`. */
  datatype Key =
    | Escape | System
    | LeftCtrl | RightCtrl | LeftShift | RightShift | LeftAlt | RightAlt | LWin | RWin
    | Other(id: nat)

  /** The eight keys that feed the modifier byte instead of the keycode list. */
  predicate IsModifier(k: Key)
  {
    k.LeftCtrl? || k.RightCtrl? || k.LeftShift? || k.RightShift? ||
    k.LeftAlt? || k.RightAlt? || k.LWin? || k.RWin?
  }

  /** `HIDKeyMapper`, whose table and bit layout are not part of this model: a key's HID code
      (0 when it has none) and the modifier byte for the ctrl/shift/alt/win flags. */
  datatype KeyMapper = KeyMapper(keycode: Key -> byte, modifiers: ModifierFlags -> byte)

  /** The four inputs of `GetModifiers`. */
  datatype ModifierFlags = ModifierFlags(ctrl: bool, shift: bool, alt: bool, win: bool)

  const MaxKeycodes := 6

  /** Each flag is raised when either key of its pair is held. */
  function Flags(pressed: seq<Key>): ModifierFlags
  {
    ModifierFlags(
      LeftCtrl in pressed || RightCtrl in pressed,
      LeftShift in pressed || RightShift in pressed,
      LeftAlt in pressed || RightAlt in pressed,
      LWin in pressed || RWin in pressed)
  }

  /** Whether a held key contributes a code: it is not a modifier and it maps to a nonzero code. */
  predicate Reported(keycode: Key -> byte, k: Key)
  {
    !IsModifier(k) && keycode(k) != 0
  }

  /** The `Where`/`Select`/`Where` stages: the codes of the reported keys, in the order held. */
  function MappedCodes(pressed: seq<Key>, keycode: Key -> byte): (codes: seq<byte>)
    ensures |codes| <= |pressed|
    ensures forall c :: c in codes ==> c != 0
    ensures forall c :: c in codes ==> exists k :: k in pressed && Reported(keycode, k) && keycode(k) == c
    ensures forall k :: k in pressed && Reported(keycode, k) ==> keycode(k) in codes
  {
    if pressed == [] then []
    else
      var rest := MappedCodes(pressed[1..], keycode);
      assert forall k :: k in pressed[1..] ==> k in pressed;
      assert forall k :: k in pressed ==> k == pressed[0] || k in pressed[1..];
      if Reported(keycode, pressed[0]) then [keycode(pressed[0])] + rest else rest
  }

  /** The whole pipeline, ending in `Take(6)`. */
  function Keycodes(pressed: seq<Key>, keycode: Key -> byte): (codes: seq<byte>)
    ensures |codes| <= MaxKeycodes
    ensures forall c :: c in codes ==> c != 0
    ensures forall c :: c in codes ==> exists k :: k in pressed && Reported(keycode, k) && keycode(k) == c
  {
    var all := MappedCodes(pressed, keycode);
    var n := if |all| < MaxKeycodes then |all| else MaxKeycodes;
    assert forall c :: c in all[..n] ==> c in all;
    all[..n]
  }

  /** The report `SendKeyboardStateSync` hands to the client. */
  function Report(mapper: KeyMapper, pressed: seq<Key>): Msg
  {
    Keyboard(mapper.modifiers(Flags(pressed)), Keycodes(pressed, mapper.keycode))
  }

  /** When no more than six keys are reported, every reported key's code is in the list. */
  lemma KeycodesKeepAllUpToSix(pressed: seq<Key>, keycode: Key -> byte)
    requires |MappedCodes(pressed, keycode)| <= MaxKeycodes
    ensures forall k :: k in pressed && Reported(keycode, k) ==> keycode(k) in Keycodes(pressed, keycode)
  {
    assert MappedCodes(pressed, keycode)[..|MappedCodes(pressed, keycode)|] == MappedCodes(pressed, keycode);
  }

  /** Holding one more key extends the stage before `Take(6)` by its code when it is reported. */
  lemma {:induction false} MappedCodesAppend(pressed: seq<Key>, k: Key, keycode: Key -> byte)
    ensures MappedCodes(pressed + [k], keycode) ==
      MappedCodes(pressed, keycode) + (if Reported(keycode, k) then [keycode(k)] else [])
  {
    if pressed == [] {
      assert [] + [k] == [k];
    } else {
      assert (pressed + [k])[1..] == pressed[1..] + [k];
      MappedCodesAppend(pressed[1..], k, keycode);
    }
  }

  /** Pressing a key adds its code at the end of the list when it is reported and fewer than six codes
      are listed; pressing a modifier, an unmapped key, or any key once six codes are listed leaves
      the list as it was. */
  lemma KeycodesAfterPress(pressed: seq<Key>, k: Key, keycode: Key -> byte)
    ensures Keycodes(pressed + [k], keycode) ==
      if Reported(keycode, k) && |Keycodes(pressed, keycode)| < MaxKeycodes
      then Keycodes(pressed, keycode) + [keycode(k)]
      else Keycodes(pressed, keycode)
  {
    MappedCodesAppend(pressed, k, keycode);
  }

  /** Keys that map to distinct nonzero codes. */
  ghost predicate CodesInjective(keycode: Key -> byte)
  {
    forall a, b :: a != b && keycode(a) != 0 ==> keycode(a) != keycode(b)
  }

  /** With duplicate-free held keys and a table that gives distinct keys distinct codes,
      no code appears twice in the list. */
  lemma {:induction false} MappedCodesDistinct(pressed: seq<Key>, keycode: Key -> byte)
    requires Distinct(pressed) && CodesInjective(keycode)
    ensures Distinct(MappedCodes(pressed, keycode))
  {
    if pressed != [] {
      var tail := pressed[1..];
      assert Distinct(tail);
      MappedCodesDistinct(tail, keycode);
      var rest := MappedCodes(tail, keycode);
      if Reported(keycode, pressed[0]) {
        var c := keycode(pressed[0]);
        assert pressed[0] !in tail;
        assert c !in rest;
        assert MappedCodes(pressed, keycode) == [c] + rest;
      }
    }
  }

  lemma KeycodesDistinct(pressed: seq<Key>, keycode: Key -> byte)
    requires Distinct(pressed) && CodesInjective(keycode)
    ensures Distinct(Keycodes(pressed, keycode))
  {
    MappedCodesDistinct(pressed, keycode);
  }

  /** The pipeline does not remove duplicates: two held keys that share a code report it twice,
      so the distinctness lemmas need `CodesInjective`. */
  lemma KeycodesRepeatSharedCode(keycode: Key -> byte)
    requires keycode(Other(1)) == 4 && keycode(Other(2)) == 4
    ensures Keycodes([Other(1), Other(2)], keycode) == [4, 4]
  {
    assert [Other(1), Other(2)][1..] == [Other(2)];
  }

  /** `HashSet.Remove`, on the insertion-ordered model of the set: the key is taken out where it stands. */
  function Without(s: seq<Key>, k: Key): (r: seq<Key>)
    ensures forall x :: x in r <==> x in s && x != k
    ensures Distinct(s) ==> Distinct(r) && |r| == if k in s then |s| - 1 else |s|
    ensures k !in s ==> r == s
  {
    if s == [] then []
    else if s[0] == k then Without(s[1..], k)
    else
      var rest := Without(s[1..], k);
      assert Distinct(s) ==> s[0] !in s[1..];
      [s[0]] + rest
  }

  /** In a duplicate-free sequence the key is removed where it stands and the other keys keep their order. */
  lemma {:induction false} WithoutInPlace(s: seq<Key>, i: nat)
    requires Distinct(s) && i < |s|
    ensures Without(s, s[i]) == s[..i] + s[i + 1..]
  {
    if i == 0 {
      assert s[0] !in s[1..];
    } else {
      WithoutInPlace(s[1..], i - 1);
      assert s[1..][..i - 1] == s[1..i];
      assert s[1..][i..] == s[i + 1..];
      assert [s[0]] + s[1..i] == s[..i];
    }
  }

  /** Modifier pairs are equivalent: with both keys of a pair held, releasing either still reports the
      flag, and the flag falls only when neither is held. */
  lemma ReleaseOneOfPair(pressed: seq<Key>)
    requires LeftCtrl in pressed && RightCtrl in pressed
    ensures Flags(Without(pressed, LeftCtrl)).ctrl && Flags(Without(pressed, RightCtrl)).ctrl
    ensures !Flags(Without(Without(pressed, LeftCtrl), RightCtrl)).ctrl
  {
  }
}
