/** The raylib keypad of src/keyboard.rs. Whether a key is held down is a
    query to the windowing library; here it is a predicate supplied by the
    caller, one per poll. */
module Keyboard {
  import opened Common

  /** The raylib keys the table mentions. */
  datatype KeyboardKey =
    | KeyZero | KeyOne | KeyTwo | KeyThree | KeyFour | KeyFive | KeySix | KeySeven
    | KeyEight | KeyNine | KeyA | KeyB | KeyC | KeyD | KeyE | KeyF

  /** `code_to_key`: codes 1..15 map to the digit and letter keys; every
      other code maps to `KEY_ZERO`. */
  function CodeToKey(code: u8): (k: KeyboardKey)
    ensures (code == 0 || code > 0xF) <==> k == KeyZero
  {
    match code
    case 0x1 => KeyOne
    case 0x2 => KeyTwo
    case 0x3 => KeyThree
    case 0x4 => KeyFour
    case 0x5 => KeyFive
    case 0x6 => KeySix
    case 0x7 => KeySeven
    case 0x8 => KeyEight
    case 0x9 => KeyNine
    case 0xA => KeyA
    case 0xB => KeyB
    case 0xC => KeyC
    case 0xD => KeyD
    case 0xE => KeyE
    case 0xF => KeyF
    case _ => KeyZero
  }

  /** `code_to_key` is injective on the keypad codes 0..15, so codes
      1..15 name fifteen pairwise-distinct keys. */
  lemma CodeToKeyInjective(a: u8, b: u8)
    requires a <= 0xF && b <= 0xF && a != b
    ensures CodeToKey(a) != CodeToKey(b)
  {
  }

  /** `is_key_pressed`: the code's key is held down. */
  predicate IsKeyPressed(isKeyDown: KeyboardKey -> bool, code: u8): (r: bool)
    ensures (code == 0 || code > 0xF) ==> (r <==> isKeyDown(KeyZero))
    ensures 1 <= code <= 0xF ==> CodeToKey(code) != KeyZero && (r <==> isKeyDown(CodeToKey(code)))
  {
    isKeyDown(CodeToKey(code))
  }

  /** One pass of the scan loop of `wait_for_key`: try codes 1..15 in
      order and return the first whose key is down. */
  method ScanOnce(isKeyDown: KeyboardKey -> bool) returns (r: Option<u8>)
    ensures r.Some? ==> 1 <= r.value <= 0xF && IsKeyPressed(isKeyDown, r.value)
    ensures r.Some? ==> forall c: u8 | 1 <= c < r.value :: !IsKeyPressed(isKeyDown, c)
    ensures r.None? ==> forall c: u8 | 1 <= c <= 0xF :: !IsKeyPressed(isKeyDown, c)
    ensures r == FirstPressed(isKeyDown, 1)
  {
    var code: u8 := 0x1;
    while code <= 0xF
      invariant 1 <= code <= 0x10
      invariant forall c: u8 | 1 <= c < code :: !IsKeyPressed(isKeyDown, c)
    {
      if IsKeyPressed(isKeyDown, code) {
        ScanIsFirstPressed(isKeyDown, Some(code));
        return Some(code);
      }
      code := code + 1;
    }
    ScanIsFirstPressed(isKeyDown, None);
    return None;
  }

  /** The reference answer of a scan: the smallest pressed code in 1..15. */
  function FirstPressed(isKeyDown: KeyboardKey -> bool, from: nat): (r: Option<u8>)
    requires 1 <= from <= 0x10
    decreases 0x10 - from
  {
    if from == 0x10 then None
    else if IsKeyPressed(isKeyDown, from) then Some(from)
    else FirstPressed(isKeyDown, from + 1)
  }

  /** No keypad key is down at this poll. */
  predicate Idle(isKeyDown: KeyboardKey -> bool) {
    FirstPressed(isKeyDown, 1).None?
  }

  /** A poll is idle exactly when none of the codes 1..15 is held down. */
  lemma IdleIsNoKeyDown(isKeyDown: KeyboardKey -> bool)
    ensures Idle(isKeyDown) <==> forall c: u8 | 1 <= c <= 0xF :: !IsKeyPressed(isKeyDown, c)
  {
    FirstPressedSpec(isKeyDown, 1);
  }

  /** `wait_for_key`: repeat the scan, with the key state of each poll
      supplied in `polls`, until some code is pressed; the source sleeps
      between polls and never gives up, so running out of polls is `None`
      here. */
  method WaitForKey(polls: seq<KeyboardKey -> bool>) returns (r: Option<u8>, pollsUsed: nat)
    ensures r.Some? ==> 0 < pollsUsed <= |polls|
    ensures r.Some? ==> r == FirstPressed(polls[pollsUsed - 1], 1)
    ensures r.Some? ==> r.value != 0
    ensures r.None? ==> pollsUsed == |polls|
    ensures forall k | 0 <= k && k + 1 < pollsUsed :: Idle(polls[k])
    ensures r.None? ==> forall k | 0 <= k < |polls| :: Idle(polls[k])
  {
    r, pollsUsed := None, 0;
    while pollsUsed < |polls| && r.None?
      invariant pollsUsed <= |polls|
      invariant forall k | 0 <= k && k + 1 < pollsUsed :: Idle(polls[k])
      invariant r.None? ==> forall k | 0 <= k < pollsUsed :: Idle(polls[k])
      invariant r.Some? ==> 0 < pollsUsed && r == FirstPressed(polls[pollsUsed - 1], 1) && r.value != 0
    {
      r := ScanOnce(polls[pollsUsed]);
      pollsUsed := pollsUsed + 1;
    }
  }

  /** The scan's answer is pinned down to `FirstPressed`. */
  lemma ScanIsFirstPressed(isKeyDown: KeyboardKey -> bool, found: Option<u8>)
    requires found.Some? ==> 1 <= found.value <= 0xF && IsKeyPressed(isKeyDown, found.value)
    requires found.Some? ==> forall c: u8 | 1 <= c < found.value :: !IsKeyPressed(isKeyDown, c)
    requires found.None? ==> forall c: u8 | 1 <= c <= 0xF :: !IsKeyPressed(isKeyDown, c)
    ensures found == FirstPressed(isKeyDown, 1)
  {
    FirstPressedSpec(isKeyDown, 1);
  }

  lemma {:induction false} FirstPressedSpec(isKeyDown: KeyboardKey -> bool, from: nat)
    requires 1 <= from <= 0x10
    ensures var r := FirstPressed(isKeyDown, from);
            && (r.Some? ==> from <= r.value <= 0xF && IsKeyPressed(isKeyDown, r.value)
                            && forall c: u8 | from <= c < r.value :: !IsKeyPressed(isKeyDown, c))
            && (r.None? ==> forall c: u8 | from <= c <= 0xF :: !IsKeyPressed(isKeyDown, c))
    decreases 0x10 - from
  {
    if from < 0x10 {
      FirstPressedSpec(isKeyDown, from + 1);
    }
  }
}
