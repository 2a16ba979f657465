/** Key identities, modifier bits, hotkey ids and the pure key-classification
    helpers of AutoHotkey's low-level keyboard hook (Source/hook_include.cpp).

    The virtual-key and scan-code values are the Windows ones.  The MOD_*,
    SC_R*, PAD_* and HOTKEY_ID_* values come from headers that are not part of
    this model (keyboard.h, hotkey.h); AutoHotkey's values are used, and the
    proofs rely only on the MOD_* bits being eight distinct single bits and on
    the special hotkey ids being distinct values below HOTKEY_ID_MASK. */
module KeyCodes {

  datatype Option<T> = None | Some(value: T)

  /** A virtual-key code; vk_type is one byte. */
  type VK = x: int | 0 <= x < 256

  /** A normalised scan code: the low byte of the hardware code plus 0x100
      when the key is an extended key. */
  type SC = x: int | 0 <= x < 512

  const VK_TAB: VK := 0x09
  const VK_CLEAR: VK := 0x0C
  const VK_SHIFT: VK := 0x10
  const VK_CONTROL: VK := 0x11
  const VK_MENU: VK := 0x12
  const VK_PRIOR: VK := 0x21
  const VK_NEXT: VK := 0x22
  const VK_END: VK := 0x23
  const VK_HOME: VK := 0x24
  const VK_LEFT: VK := 0x25
  const VK_UP: VK := 0x26
  const VK_RIGHT: VK := 0x27
  const VK_DOWN: VK := 0x28
  const VK_INSERT: VK := 0x2D
  const VK_DELETE: VK := 0x2E
  const VK_L: VK := 0x4C
  const VK_LWIN: VK := 0x5B
  const VK_RWIN: VK := 0x5C
  const VK_NUMPAD0: VK := 0x60
  const VK_NUMPAD1: VK := 0x61
  const VK_NUMPAD2: VK := 0x62
  const VK_NUMPAD3: VK := 0x63
  const VK_NUMPAD4: VK := 0x64
  const VK_NUMPAD5: VK := 0x65
  const VK_NUMPAD6: VK := 0x66
  const VK_NUMPAD7: VK := 0x67
  const VK_NUMPAD8: VK := 0x68
  const VK_NUMPAD9: VK := 0x69
  const VK_DECIMAL: VK := 0x6E
  const VK_NUMLOCK: VK := 0x90
  const VK_LSHIFT: VK := 0xA0
  const VK_RSHIFT: VK := 0xA1
  const VK_LCONTROL: VK := 0xA2
  const VK_RCONTROL: VK := 0xA3
  const VK_LMENU: VK := 0xA4
  const VK_RMENU: VK := 0xA5

  /** Scan codes that make a neutral Shift/Ctrl/Alt event a right-hand one. */
  const SC_RSHIFT: SC := 0x136
  const SC_RCONTROL: SC := 0x11D
  const SC_RALT: SC := 0x138

  /** One bit per side-specific modifier key (modLR_type). */
  const MOD_LCONTROL: bv8 := 0x01
  const MOD_RCONTROL: bv8 := 0x02
  const MOD_LALT: bv8 := 0x04
  const MOD_RALT: bv8 := 0x08
  const MOD_LSHIFT: bv8 := 0x10
  const MOD_RSHIFT: bv8 := 0x20
  const MOD_LWIN: bv8 := 0x40
  const MOD_RWIN: bv8 := 0x80

  /** Milliseconds within which a shift event and a numpad event are
      considered to belong together (SHIFT_KEY_WORKAROUND_TIMEOUT). */
  const SHIFT_KEY_WORKAROUND_TIMEOUT: bv32 := 22

  /** Milliseconds from `earlier` to `now` as GetTickCount() counts them:
      the 32-bit count wraps around, and so does the difference. */
  function TicksSince(now: bv32, earlier: bv32): bv32
  {
    now - earlier
  }

  /** Less than SHIFT_KEY_WORKAROUND_TIMEOUT has passed since `earlier`. */
  predicate WithinShiftTimeout(now: bv32, earlier: bv32)
  {
    TicksSince(now, earlier) < SHIFT_KEY_WORKAROUND_TIMEOUT
  }

  /** pad_state has one slot per dual-state numpad key: the decimal point and
      the ten digits. */
  const PAD_TOTAL_COUNT: nat := 11

  /** Hotkey ids (HotkeyIDType is 16 bits): the top bit is the
      "do not suppress" flag, the other 15 bits the id. */
  const HOTKEY_NO_SUPPRESS: bv16 := 0x8000
  const HOTKEY_ID_MASK: bv16 := 0x7FFF
  const HOTKEY_ID_INVALID: bv16 := 0x7FFF
  const HOTKEY_ID_ALT_TAB: bv16 := 0x7FFE
  const HOTKEY_ID_ALT_TAB_SHIFT: bv16 := 0x7FFD
  const HOTKEY_ID_ALT_TAB_MENU: bv16 := 0x7FFC
  const HOTKEY_ID_ALT_TAB_AND_MENU: bv16 := 0x7FFB
  const HOTKEY_ID_ALT_TAB_MENU_DISMISS: bv16 := 0x7FFA

  /** The numpad keys as pairs (navigation VK sent with Numlock off or Shift
      held, digit VK sent with Numlock on), in pad_state order. */
  const PadPairs: seq<(VK, VK)> := [
    (VK_DELETE, VK_DECIMAL), (VK_INSERT, VK_NUMPAD0), (VK_END, VK_NUMPAD1),
    (VK_DOWN, VK_NUMPAD2), (VK_NEXT, VK_NUMPAD3), (VK_LEFT, VK_NUMPAD4),
    (VK_CLEAR, VK_NUMPAD5), (VK_RIGHT, VK_NUMPAD6), (VK_HOME, VK_NUMPAD7),
    (VK_UP, VK_NUMPAD8), (VK_PRIOR, VK_NUMPAD9)]

  /** The 0x100 bit of a normalised scan code marks an extended key. */
  function IsExtended(sc: SC): (r: bool)
    ensures r <==> sc >= 0x100
  {
    sc >= 0x100
  }

  /** A key whose VK changes with the Numlock/Shift state: one of the eleven
      navigation VKs that a non-extended numpad key produces. */
  function IsDualStateNumpadKey(vk: VK, sc: SC): (r: bool)
    ensures r <==> !IsExtended(sc) && exists i :: 0 <= i < |PadPairs| && PadPairs[i].0 == vk
  {
    if IsExtended(sc) then false
    else
      assert PadPairs[0].0 == VK_DELETE && PadPairs[1].0 == VK_INSERT && PadPairs[2].0 == VK_END;
      assert PadPairs[3].0 == VK_DOWN && PadPairs[4].0 == VK_NEXT && PadPairs[5].0 == VK_LEFT;
      assert PadPairs[6].0 == VK_CLEAR && PadPairs[7].0 == VK_RIGHT && PadPairs[8].0 == VK_HOME;
      assert PadPairs[9].0 == VK_UP && PadPairs[10].0 == VK_PRIOR;
      vk == VK_DELETE || vk == VK_INSERT || vk == VK_END || vk == VK_DOWN
      || vk == VK_NEXT || vk == VK_LEFT || vk == VK_CLEAR || vk == VK_RIGHT
      || vk == VK_HOME || vk == VK_UP || vk == VK_PRIOR
  }

  /** The pad_state slot a VK updates: both members of a pair share a slot. */
  function PadIndex(vk: VK): (r: Option<nat>)
    ensures r.Some? ==> r.value < PAD_TOTAL_COUNT && (PadPairs[r.value].0 == vk || PadPairs[r.value].1 == vk)
    ensures r.None? <==> forall i :: 0 <= i < |PadPairs| ==> PadPairs[i].0 != vk && PadPairs[i].1 != vk
  {
    if vk == VK_DELETE || vk == VK_DECIMAL then Some(0)
    else if vk == VK_INSERT || vk == VK_NUMPAD0 then Some(1)
    else if vk == VK_END || vk == VK_NUMPAD1 then Some(2)
    else if vk == VK_DOWN || vk == VK_NUMPAD2 then Some(3)
    else if vk == VK_NEXT || vk == VK_NUMPAD3 then Some(4)
    else if vk == VK_LEFT || vk == VK_NUMPAD4 then Some(5)
    else if vk == VK_CLEAR || vk == VK_NUMPAD5 then Some(6)
    else if vk == VK_RIGHT || vk == VK_NUMPAD6 then Some(7)
    else if vk == VK_HOME || vk == VK_NUMPAD7 then Some(8)
    else if vk == VK_UP || vk == VK_NUMPAD8 then Some(9)
    else if vk == VK_PRIOR || vk == VK_NUMPAD9 then Some(10)
    else None
  }

  /** The scan code the hook works with: a zero code is replaced from the
      VK-to-scan-code table, only the low byte is kept, and the extended flag
      becomes bit 0x100.  vkToSc stands for g_vk_to_sc[vk].a. */
  function NormalizeScanCode(vk: VK, scanCode: bv32, extended: bool, vkToSc: VK -> bv16): (sc: SC)
    ensures IsExtended(sc) <==> extended
    ensures vk != 0 && scanCode & 0xFFFF == 0 ==> sc % 0x100 == (vkToSc(vk) & 0xFF) as int
    ensures vk == 0 || scanCode & 0xFFFF != 0 ==> sc % 0x100 == (scanCode & 0xFF) as int
  {
    var sc16 := (scanCode & 0xFFFF) as bv16;
    var filled := if vk != 0 && sc16 == 0 then vkToSc(vk) else sc16;
    var low := (filled & 0xFF) as int;
    if extended then low + 0x100 else low
  }

  /** One row of the modifier table: the side-specific bit and key an event
      is attributed to, the key on the other side, and the neutral key
      (none for the Windows keys). */
  datatype Slot = Slot(bit: bv8, key: VK, other: VK, neutral: Option<VK>)

  function ShiftSlot(right: bool): Slot
  {
    if right then Slot(MOD_RSHIFT, VK_RSHIFT, VK_LSHIFT, Some(VK_SHIFT))
    else Slot(MOD_LSHIFT, VK_LSHIFT, VK_RSHIFT, Some(VK_SHIFT))
  }

  function ControlSlot(right: bool): Slot
  {
    if right then Slot(MOD_RCONTROL, VK_RCONTROL, VK_LCONTROL, Some(VK_CONTROL))
    else Slot(MOD_LCONTROL, VK_LCONTROL, VK_RCONTROL, Some(VK_CONTROL))
  }

  function AltSlot(right: bool): Slot
  {
    if right then Slot(MOD_RALT, VK_RMENU, VK_LMENU, Some(VK_MENU))
    else Slot(MOD_LALT, VK_LMENU, VK_RMENU, Some(VK_MENU))
  }

  function WinSlot(right: bool): Slot
  {
    if right then Slot(MOD_RWIN, VK_RWIN, VK_LWIN, None)
    else Slot(MOD_LWIN, VK_LWIN, VK_RWIN, None)
  }

  /** The side-specific VK that owns a modifier bit. */
  function KeyOfBit(bit: bv8): (k: VK)
  {
    if bit == MOD_LCONTROL then VK_LCONTROL else if bit == MOD_RCONTROL then VK_RCONTROL
    else if bit == MOD_LALT then VK_LMENU else if bit == MOD_RALT then VK_RMENU
    else if bit == MOD_LSHIFT then VK_LSHIFT else if bit == MOD_RSHIFT then VK_RSHIFT
    else if bit == MOD_LWIN then VK_LWIN else if bit == MOD_RWIN then VK_RWIN
    else 0
  }

  predicate IsSingleModifierBit(bit: bv8)
  {
    bit == MOD_LCONTROL || bit == MOD_RCONTROL || bit == MOD_LALT || bit == MOD_RALT
    || bit == MOD_LSHIFT || bit == MOD_RSHIFT || bit == MOD_LWIN || bit == MOD_RWIN
  }

  /** The switch of UpdateModifierState as a table: which modifier a key event
      moves.  A neutral Shift/Ctrl/Alt event counts as the right-hand key only
      when its scan code is the right-hand one, otherwise as the left. */
  function ModifierSlot(vk: VK, sc: SC): (r: Option<Slot>)
    ensures r.Some? <==> vk in {VK_LSHIFT, VK_RSHIFT, VK_LCONTROL, VK_RCONTROL, VK_LMENU, VK_RMENU,
                                VK_LWIN, VK_RWIN, VK_SHIFT, VK_CONTROL, VK_MENU}
    ensures r.Some? ==> IsSingleModifierBit(r.value.bit) && KeyOfBit(r.value.bit) == r.value.key
    ensures r.Some? ==> r.value.key != r.value.other
    ensures r.Some? && r.value.neutral.Some? ==>
              r.value.neutral.value != r.value.key && r.value.neutral.value != r.value.other
    ensures r.Some? && vk != VK_SHIFT && vk != VK_CONTROL && vk != VK_MENU ==> r.value.key == vk
    ensures vk == VK_SHIFT ==> r.value.bit in {MOD_LSHIFT, MOD_RSHIFT} && (r.value.bit == MOD_RSHIFT <==> sc == SC_RSHIFT)
    ensures vk == VK_CONTROL ==> r.value.bit in {MOD_LCONTROL, MOD_RCONTROL} && (r.value.bit == MOD_RCONTROL <==> sc == SC_RCONTROL)
    ensures vk == VK_MENU ==> r.value.bit in {MOD_LALT, MOD_RALT} && (r.value.bit == MOD_RALT <==> sc == SC_RALT)
    ensures r.Some? ==> (r.value.neutral.None? <==> r.value.bit in {MOD_LWIN, MOD_RWIN})
  {
    if vk == VK_LSHIFT then Some(ShiftSlot(false))
    else if vk == VK_RSHIFT then Some(ShiftSlot(true))
    else if vk == VK_LCONTROL then Some(ControlSlot(false))
    else if vk == VK_RCONTROL then Some(ControlSlot(true))
    else if vk == VK_LMENU then Some(AltSlot(false))
    else if vk == VK_RMENU then Some(AltSlot(true))
    else if vk == VK_LWIN then Some(WinSlot(false))
    else if vk == VK_RWIN then Some(WinSlot(true))
    else if vk == VK_SHIFT then Some(ShiftSlot(sc == SC_RSHIFT))
    else if vk == VK_CONTROL then Some(ControlSlot(sc == SC_RCONTROL))
    else if vk == VK_MENU then Some(AltSlot(sc == SC_RALT))
    else None
  }

  /** Sets (key down) or clears (key up) one modifier bit. */
  function SetModifierBit(mods: bv8, bit: bv8, down: bool): (r: bv8)
    ensures r & !bit == mods & !bit
    ensures r & bit == (if down then bit else 0)
  {
    if down then mods | bit else mods & !bit
  }

  /** A hotkey id with its "do not suppress" flag split off. */
  datatype HotkeyChoice = HotkeyChoice(id: bv16, noSuppress: bool)

  /** GET_HOTKEY_ID_AND_FLAGS. */
  function SplitHotkeyId(idWithFlags: bv16): (r: HotkeyChoice)
    ensures r.id & HOTKEY_NO_SUPPRESS == 0
    ensures JoinHotkeyId(r) == idWithFlags
  {
    HotkeyChoice(idWithFlags & HOTKEY_ID_MASK, idWithFlags & HOTKEY_NO_SUPPRESS != 0)
  }

  /** The inverse: how the hotkey tables store an id with its flag. */
  function JoinHotkeyId(c: HotkeyChoice): (idWithFlags: bv16)
    ensures idWithFlags & HOTKEY_ID_MASK == c.id & HOTKEY_ID_MASK
    ensures c.id & HOTKEY_NO_SUPPRESS == 0 ==> (idWithFlags & HOTKEY_NO_SUPPRESS != 0) == c.noSuppress
  {
    c.id | (if c.noSuppress then HOTKEY_NO_SUPPRESS else 0)
  }
}
