# AutoHotkey keyboard hook, modelled in Dafny

This project models the keyboard branch of AutoHotkey's low-level hook,
`Source/hook_include.cpp`. The hook handles one key event per call and
decides whether to pass it to the system, swallow it, or swallow it and send
it again wrapped in Shift. While doing so it:

- follows the logical and physical state of the eight side-specific
  modifier keys;
- tells events made by the keyboard driver from physical ones;
- logs every event in a fixed-size history ring;
- drives the prefix/suffix state machine of custom hotkeys ("a & b");
- looks up the hotkey an event completes;
- emulates Alt-Tab with synthetic key events.

The project has four parts:

- `key_codes.dfy` (module `KeyCodes`):
  - virtual-key and scan-code constants;
  - the dual-state numpad keys;
  - scan-code normalisation;
  - the modifier table behind `UpdateModifierState`'s switch;
  - the hotkey-id/flag split;
  - 32-bit tick arithmetic.
- `hook_model.dfy` (module `HookModel`): the hook's state as a value, `State`. Each routine of the source, and each case block of `LowLevelKeybdProc`, is a function from the old state to an `Outcome`, which pairs the new state with the disposition.
- `tracking.dfy` (class `Tracking.KeyTracker`) and `hook_state.dfy` (class `Hook.HookState`): the same routines written imperatively.
  - The file-scope statics are fields, and `g_PhysicalKeyState`, `pad_state`, the runtime halves of `kvk[]`/`ksc[]` and `g_KeyHistory` are arrays.
  - Every method is proved to leave exactly the state that its `HookModel` function computes from the old state. `Hook.HookState.LowLevelKeybdProc` is proved equal to `HookModel.Step`.
- `hook_properties.dfy` (module `HookProperties`): lemmas about the model. They cover:
  - which modifier bit an event moves;
  - the Shift rollback;
  - the history cursor over any run of events;
  - the early exits;
  - the life of a prefix key;
  - the precedence of the override lists over the hotkey tables;
  - what a fired hotkey marks.

How the hook's outputs are represented:

- `KeyEvent()` appends to the `sent` log.
- `PostMessage(AHK_HOOK_HOTKEY, …)` appends the hotkey id to `posted`.
- `CallNextHookEx` is the `Allow` disposition, and "return 1" is `Suppress`.
- `AllowDisguised` is `AllowKeyToGoToSystemButDisguiseWinAlt`.
- `AllowKeyToGoToSystem` is `AllowIt`. It still suppresses a lock key whose toggle state is pinned on or off.

The key records are referred to by `KeyRef` (`VkKey(vk)` or `ScKey(sc)`), and `pPrefixKey` is an `Option<KeyRef>`. After each write the model re-reads the record through its `KeyRef`, so two pointers to the same record behave as they do in C.

Some values come from outside this file:

- The static half of the key records, the `Kvkm`/`Kscm` tables, `g_vk_to_sc` and the OS version queries form the `Config`.
- `GetTickCount()`, `IsKeyToggledOn(VK_NUMLOCK)` and the event's fields form the `KeyboardEvent`.

The comparison on line 712 is written `(MOD_RWIN | MOD_RWIN)`. So the Win-L reset applies only when exactly one Win key is down, never when both are. The model keeps this as written, and `HookProperties.WinLockResetNeedsOneWinKey` states it.

## Model

| member | source | states |
|---|---|---|
| KeyCodes.IsDualStateNumpadKey | Source/hook_include.cpp:125-152 | true exactly for a non-extended scan code with one of the eleven navigation VKs a numpad key sends with Numlock off |
| KeyCodes.PadIndex | Source/hook_include.cpp:945-961 | the pad_state slot of a VK is shared by the two members of a numpad pair; None exactly when the VK is in no pair |
| KeyCodes.NormalizeScanCode | Source/hook_include.cpp:840-855 | the extended flag becomes bit 0x100; a zero scan code is replaced from the VK table; the low byte is kept |
| KeyCodes.ModifierSlot | Source/hook_include.cpp:198-544 | which modifier an event moves: only the eleven modifier VKs have a slot; a side-specific VK moves its own bit; a neutral Shift/Ctrl/Alt counts as right-hand iff its scan code is the right-hand one (0x136 for Shift, 0x11D for Ctrl, 0x138 for Alt); only the Win keys lack a neutral key |
| KeyCodes.SetModifierBit | Source/hook_include.cpp:198-544 | a press sets and a release clears the key's bit; all other bits are kept |
| KeyCodes.SplitHotkeyId | Source/hook_include.cpp:1302-1305 | the id has no flag bit left and joining id and flag gives back the original value |
| HookModel.EventIsPhysical | Source/hook_include.cpp:158-184 | injected events are never physical; a non-injected event other than a Shift/LShift press always is; a Shift press is not physical iff the latch is set with no dual-state numpad key down, or it follows a numpad-key release within 22 ticks; the latch is consumed only by such a press; g_TimeLastInputPhysical moves only for physical events |
| HookModel.PressPhysical | Source/hook_include.cpp:198-544 | a physical modifier event sets its own key's state; the neutral key's state becomes "left or right down"; every other key is unchanged |
| HookModel.RollBackShift | Source/hook_include.cpp:554-573 | the latch is set only for cases 4 and 5 of the workaround; when a rollback applies, the physical mask and the Shift/LShift states return to the snapshot; otherwise they are unchanged; no other key changes |
| HookModel.UpdateModifierState | Source/hook_include.cpp:198-544 | a key with no modifier slot leaves the tracker unchanged; otherwise the numpad state, prior event and snapshot are kept; which bits and keys move is stated by the HookProperties.ModifierUpdate* lemmas |
| HookModel.PhysicalModifierUpdate | Source/hook_include.cpp:198-544 | the logical mask, numpad state, prior event and snapshot are kept; the latch is consumed exactly by a non-injected Shift/LShift press with no dual-state numpad key down |
| HookModel.UpdateKeyState | Source/hook_include.cpp:548-599 | the event becomes the prior event (vk, sc, direction, tick); an injected event is never recorded as physical; the logical mask moves the event's own bit iff the key is configured as a modifier, has a slot and is not suppressed; for any other key the physical mask and key states are those after the Shift rollback; the numpad state is unchanged |
| HookModel.ModifierStage | Source/hook_include.cpp:548-589 | the part before the prior-event memory: the logical mask moves the event's own bit iff the key is configured as a modifier, has a slot and is not suppressed; for any other key the physical mask and key states are those after the Shift rollback; the numpad state is unchanged |
| HookModel.RememberEvent | Source/hook_include.cpp:590-598 | the event becomes the prior event (vk, sc, direction, tick), remembered as physical iff it is not injected and is not an LShift/Shift press while the latch is set and no dual-state numpad key is down; the masks, key states and snapshot are kept |
| HookModel.TrackNumpad | Source/hook_include.cpp:945-961 | with Numlock on, a non-extended numpad key records its direction in its pair's pad_state slot; nothing else changes |
| HookModel.TrackPhysicalKey | Source/hook_include.cpp:980-981 | a modifier key is left alone here; otherwise the event's own key entry follows the event iff it is physical, every other entry and both masks are unchanged |
| HookModel.RecordHistory | Source/hook_include.cpp:919-933 | the cursor slot receives vk, sc, direction, ticks since the previous event and type 'i' iff the event is tagged ignore (else ' '); the cursor advances by one modulo the ring size; other slots are unchanged |
| HookModel.InitialState | Source/hook_include.cpp:93-102 | the hook starts with no prefix, empty modifier masks, no numpad key down, the latch off and the history cursor at 0 |
| HookModel.WinLockResetApplied | Source/hook_include.cpp:707-723 | Win-L on XP or later with a lone Win key logically down clears both masks and the L, LWin and RWin entries, leaving other keys; otherwise nothing changes |
| HookModel.CtrlAltDelResetApplied | Source/hook_include.cpp:728-761 | Del with Ctrl and Alt physically held (no Shift) on Windows 2000/NT4 clears both masks, the Del and the four Ctrl/Alt entries, leaving other keys; otherwise nothing changes |
| HookModel.SuppressThisKey | Source/hook_include.cpp:607-670 | the history type changes only from ' ' to 's', never overwriting 'h' or 'i'; other history slots are unchanged; a suppressed Numlock press that is not ignored sends the Numlock restore sequence and nothing else is sent; key records, disguise flags, the menu flag and posted ids are unchanged |
| HookModel.AllowIt | Source/hook_include.cpp:679-804 | the event is suppressed iff it is a lock key pinned on or off; it is disguised iff it is a Win/Alt release of a modifier-configured key that was asked to be disguised; a disguised release sends Shift down, the key, Shift up and is logged 's' unless already 'h'; an allowed event sends nothing and leaves the history; the menu flag is cleared exactly when a let-through Alt release of a modifier not logged as hotkey or suppressed closes it; a suppressed event updates the tracker as suppressed, a passed one updates it then applies the Win-L and Ctrl-Alt-Del resets |
| HookModel.PassModifier | Source/hook_include.cpp:764-803 | for a key configured as a modifier: never suppressed; disguised iff it is a Win/Alt release asked to be disguised, which sends Shift down, the key, Shift up and logs 's' unless already 'h'; otherwise nothing is sent and the history is kept; the menu flag is cleared exactly by an Alt release not logged as hotkey or suppressed; the tracker, key records, posted log and disguise flags are kept |
| HookModel.NativeOrSuppress | Source/hook_include.cpp:1129-1137 | a key that is neither a modifier nor a neutral lock key is suppressed; one that is passes, suppressed only when it is a pinned lock key and never disguised; key records are unchanged |
| HookModel.NoteAltTabMenu | Source/hook_include.cpp:967-970 | the menu flag becomes set iff it was set or this is a Tab press with Alt logically down and no Ctrl |
| HookModel.ClearDisguise | Source/hook_include.cpp:1002-1030 | the release of a Win/Alt key consumes exactly that key's pending disguise flag (Alt and LAlt share one); every other flag is unchanged and none is set |
| HookModel.ThisKey | Source/hook_include.cpp:1045 | the event uses its scan-code record iff that record takes precedence, otherwise its VK record |
| HookModel.Dispatch | Source/hook_include.cpp:1052-1102 | the result is well formed, the history ring keeps its size and cursor, and the sent and posted logs are only appended to; its branches are stated by the lemmas listed under Left out |
| HookModel.NoteKeyDown | Source/hook_include.cpp:1093-1100 | the key's is_down follows the event; a release clears down_performed_action; its other fields and all other records are unchanged |
| HookModel.PrefixSuffix | Source/hook_include.cpp:1108-1293 | the result is well formed, the history ring keeps its size and cursor, and the sent and posted logs are only appended to; its branches are stated by the lemmas listed under Left out |
| HookModel.PrefixUp | Source/hook_include.cpp:1182-1293 | the result is well formed, the history ring keeps its size and cursor, and the sent and posted logs are only appended to; on a release, once the prefix is let go (HookModel.ReleasePrefix) no key record and not the prefix pointer changes; its branches are stated by the lemmas listed under Left out |
| HookModel.ReleasePrefix | Source/hook_include.cpp:1184-1204 | the prefix pointer is dropped only if it is this key; Alt up and Shift up are sent exactly when the key had put them down, and both flags are cleared; no other record changes |
| HookModel.FirstDownVk | Source/hook_include.cpp:1307-1317 | the first ModifierVK entry whose prefix key is down, or None if none is |
| HookModel.FirstDownSc | Source/hook_include.cpp:1320-1330 | the first ModifierSC entry whose prefix key is down, or None if none is |
| HookModel.OverrideLookup | Source/hook_include.cpp:1307-1333 | an override that names a hotkey makes its prefix the active one, marked as having fired a hotkey; otherwise the prefix is unchanged; the sent log, tracker, history and menu flag are untouched |
| HookModel.TableLookup | Source/hook_include.cpp:1436-1449 | the hotkey is that of the logical modifiers without the key's own bits, or, only while the Alt-Tab menu is shown and that lookup found nothing, that of the same modifiers without the Alt bits |
| HookModel.SuffixAction | Source/hook_include.cpp:1299-1510 | the result is well formed, the history ring keeps its size and cursor, and the sent and posted logs are only appended to; a release changes no key record and not the prefix pointer; its branches are stated by the lemmas listed under Left out |
| HookModel.Resolve | Source/hook_include.cpp:1436-1510 | the result is well formed, the history ring keeps its size and cursor, and the sent and posted logs are only appended to; a release changes no key record and not the prefix pointer; its branches are stated by the lemmas listed under Left out |
| HookModel.AltTabPrefixKeys | Source/hook_include.cpp:1337-1426 | the sequence starts with Alt down iff no Alt is held; a Ctrl suffix is released; Shift down is sent iff it is Shift-Alt-Tab and no Shift is held; for Alt-Tab a Shift suffix and a held Shift are released; a held Ctrl is released; Tab is pressed; Shift-Alt-Tab from a numpad digit ends with Tab then Shift up, and otherwise the sequence ends with Tab |
| HookModel.AltTabFromPrefix | Source/hook_include.cpp:1337-1432 | the event is suppressed, its history entry marked 'h', and the Alt-Tab sequence sent |
| HookModel.AltTabPrefixRecords | Source/hook_include.cpp:1343-1429 | the suffix records that its press performed an action; the prefix holds Alt, holds Shift for Shift-Alt-Tab from a key other than a numpad digit (otherwise keeps its Shift mark), and keeps its use mark; the prefix pointer, logs, history and tracker are unchanged |
| HookModel.SetDisguiseFlags | Source/hook_include.cpp:1517-1539 | a hotkey with only Win keys down marks the held Win keys for disguise, and one with only Alt keys down marks the held Alt keys, unless the key is itself a prefix; flags already set stay set |
| HookModel.DismissMenuKeys | Source/hook_include.cpp:1556-1565 | dismissing the menu sends only key releases, the first of them an Alt key |
| HookModel.ShowMenuKeys | Source/hook_include.cpp:1567-1665 | showing the menu presses Tab but never releases it; the held Shift (or a Shift suffix going down) is released first and the held Ctrl (or Ctrl suffix) is released, and no other key is released; Alt is pressed iff no Alt is held (for an Alt suffix: iff it is a release); the sequence ends with the released Shift put back down unless the key is itself a Shift key, otherwise with Tab down |
| HookModel.AltTabStepKeys | Source/hook_include.cpp:1674-1716 | a step through the menu presses Tab; it starts by releasing the key itself iff it is a Ctrl or Shift press; Alt is pressed iff no Alt is held or the key is an Alt release; Shift-Alt-Tab with no Shift held ends with Shift down, Tab, Shift up; otherwise the sequence ends with Tab |
| HookModel.HotkeySwitch | Source/hook_include.cpp:1541-1752 | a non-Alt-Tab id is posted and nothing is sent; Alt-Tab ids post nothing; the event is let through iff the menu is hidden and the id is dismiss, Alt-Tab or Shift-Alt-Tab; it shows, dismisses or steps the menu as the id and menu state demand |
| HookModel.Fire | Source/hook_include.cpp:1517-1834 | the result is well formed, the history ring keeps its size and cursor, and the sent and posted logs are only appended to; a release changes no key record and not the prefix pointer; its branches are stated by the lemmas listed under Left out |
| HookModel.Finish | Source/hook_include.cpp:1754-1834 | after a hotkey the history entry is 'h'; on a press the event is suppressed, the key records its action, the prefix is kept and marked as having fired a hotkey; a release changes no key record and not the prefix pointer |
| HookModel.FinishPress | Source/hook_include.cpp:1811-1834 | the event is suppressed, the key records that its press performed an action, a held prefix that it fired a hotkey, and the prefix pointer is kept |
| HookModel.Bookkeeping | Source/hook_include.cpp:919-981 | every event is logged in the ring; the numpad state follows the event; the menu flag is HookModel.NoteAltTabMenu of the old one; only the event's own physical key entry can change; both masks, the prior event, the snapshot, key records, sent keys, posted ids and disguise flags are unchanged |
| HookModel.Step | Source/hook_include.cpp:822-1834 | an event the hook is not asked to act on changes nothing and is allowed; every other event advances the history cursor by one modulo the ring size |
| Tracking.KeyTracker.constructor | Source/hook_include.cpp:93-102 | the tracker starts as the model's initial tracker |
| Tracking.KeyTracker.DualStateNumpadKeyIsDown | Source/hook_include.cpp:107-121 | the loop returns true iff some pad_state entry is set |
| Tracking.KeyTracker.EventIsPhysical | Source/hook_include.cpp:158-184 | in place, the result and new state are HookModel.EventIsPhysical of the old state |
| Tracking.KeyTracker.PressPhysical | Source/hook_include.cpp:198-544 | the physical key array becomes HookModel.PressPhysical of the old one |
| Tracking.KeyTracker.UpdateModifierState | Source/hook_include.cpp:198-544 | in place, the new tracker is HookModel.UpdateModifierState of the old one |
| Tracking.KeyTracker.PhysicalModifierUpdate | Source/hook_include.cpp:198-544 | in place, the new tracker is HookModel.PhysicalModifierUpdate of the old one |
| Tracking.KeyTracker.RestoreShiftSnapshot | Source/hook_include.cpp:564-572 | the physical mask and Shift/LShift entries return to the snapshot, nothing else changes |
| Tracking.KeyTracker.RollBackShift | Source/hook_include.cpp:554-573 | in place, the new tracker is HookModel.RollBackShift of the old one |
| Tracking.KeyTracker.TakeShiftSnapshot | Source/hook_include.cpp:580-582 | the snapshot holds the current physical mask and Shift/LShift entries, nothing else changes |
| Tracking.KeyTracker.RememberEvent | Source/hook_include.cpp:590-598 | in place, the new tracker is HookModel.RememberEvent of the old one |
| Tracking.KeyTracker.UpdateKeyState | Source/hook_include.cpp:548-599 | in place, the new tracker is HookModel.UpdateKeyState of the old one |
| Tracking.KeyTracker.TrackNumpad | Source/hook_include.cpp:945-961 | in place, the new tracker is HookModel.TrackNumpad of the old one |
| Tracking.KeyTracker.TrackPhysicalKey | Source/hook_include.cpp:980-981 | in place, the new tracker is HookModel.TrackPhysicalKey of the old one |
| Tracking.KeyTracker.WinLockReset | Source/hook_include.cpp:707-723 | in place, the new tracker is HookModel.WinLockResetApplied of the old one |
| Tracking.KeyTracker.CtrlAltDelReset | Source/hook_include.cpp:728-761 | in place, the new tracker is HookModel.CtrlAltDelResetApplied of the old one |
| Hook.HookState.constructor | Source/hook_include.cpp:93-102 | the hook's state starts as HookModel.InitialState |
| Hook.HookState.SuppressThisKey | Source/hook_include.cpp:607-670 | in place, the new state is HookModel.SuppressThisKey of the old one |
| Hook.HookState.AllowIt | Source/hook_include.cpp:679-804 | in place, disposition and new state are HookModel.AllowIt of the old state |
| Hook.HookState.PassModifier | Source/hook_include.cpp:764-803 | in place, disposition and new state are HookModel.PassModifier of the old state |
| Hook.HookState.UpdateAllowedKeyState | Source/hook_include.cpp:700-761 | the tracker is updated, then the Win-L and Ctrl-Alt-Del resets are applied, in that order |
| Hook.HookState.NativeOrSuppress | Source/hook_include.cpp:1129-1137 | in place, disposition and new state are HookModel.NativeOrSuppress of the old state |
| Hook.HookState.Dispatch | Source/hook_include.cpp:1052-1102 | in place, disposition and new state are HookModel.Dispatch of the old state |
| Hook.HookState.NoteKeyDown | Source/hook_include.cpp:1093-1100 | in place, the new state is HookModel.NoteKeyDown of the old one |
| Hook.HookState.NativeOrSuppressModifier | Source/hook_include.cpp:1052-1057 | a repeat of the active prefix is let through (AllowIt) for a modifier and suppressed otherwise |
| Hook.HookState.PrefixSuffix | Source/hook_include.cpp:1108-1293 | in place, disposition and new state are HookModel.PrefixSuffix of the old state |
| Hook.HookState.ReleasePrefix | Source/hook_include.cpp:1184-1204 | in place, the new state is HookModel.ReleasePrefix of the old one |
| Hook.HookState.PrefixUp | Source/hook_include.cpp:1182-1293 | in place, disposition and new state are HookModel.PrefixUp of the old state |
| Hook.HookState.FindVkOverride | Source/hook_include.cpp:1307-1317 | the loop returns HookModel.FirstDownVk over the live key records |
| Hook.HookState.FindScOverride | Source/hook_include.cpp:1320-1330 | the loop returns HookModel.FirstDownSc over the live key records |
| Hook.HookState.OverrideLookup | Source/hook_include.cpp:1307-1333 | in place, the choice and new state are HookModel.OverrideLookup of the old state |
| Hook.HookState.SuffixAction | Source/hook_include.cpp:1299-1510 | in place, disposition and new state are HookModel.SuffixAction of the old state |
| Hook.HookState.AltTabFromPrefix | Source/hook_include.cpp:1337-1432 | in place, the event is suppressed and the new state is HookModel.AltTabFromPrefix of the old one |
| Hook.HookState.Resolve | Source/hook_include.cpp:1436-1510 | in place, disposition and new state are HookModel.Resolve of the old state |
| Hook.HookState.Fire | Source/hook_include.cpp:1517-1834 | in place, disposition and new state are HookModel.Fire of the old state |
| Hook.HookState.SetDisguise | Source/hook_include.cpp:1517-1539 | the disguise flags become HookModel.SetDisguiseFlags of the old ones, nothing else changes |
| Hook.HookState.HotkeySwitchArm | Source/hook_include.cpp:1541-1752 | sends, posts and sets the menu flag as HookModel.HotkeySwitch says, and returns whether the event is let through |
| Hook.HookState.Finish | Source/hook_include.cpp:1754-1834 | in place, disposition and new state are HookModel.Finish of the old state |
| Hook.HookState.RecordHistory | Source/hook_include.cpp:919-933 | in place, the ring buffer and its cursor become HookModel.RecordHistory of the old ones and nothing else in the state changes |
| Hook.HookState.Bookkeeping | Source/hook_include.cpp:919-981 | in place, the new state is HookModel.Bookkeeping of the old one |
| Hook.HookState.LowLevelKeybdProc | Source/hook_include.cpp:822-1834 | one call of the hook: disposition and new state are HookModel.Step of the old state |
| HookProperties.ModifierUpdateLogicalBit | Source/hook_include.cpp:198-544 | the logical mask is unchanged when the event is suppressed; otherwise only the event's own bit moves, set on press and cleared on release |
| HookProperties.ModifierUpdatePhysicalState | Source/hook_include.cpp:198-544 | the physical mask and key states follow the event iff it is physical |
| HookProperties.ModifierUpdateNotPhysical | Source/hook_include.cpp:198-544 | a non-physical modifier event leaves the physical mask and key states unchanged |
| HookProperties.ModifierUpdateOwnPhysicalBit | Source/hook_include.cpp:198-544 | a physical event sets or clears its own bit in the physical mask |
| HookProperties.ModifierUpdateOtherPhysicalBits | Source/hook_include.cpp:198-544 | a physical event leaves every other bit of the physical mask unchanged |
| HookProperties.ModifierUpdatePhysicalKeys | Source/hook_include.cpp:198-544 | after a physical event, its key follows the event, the neutral key is "left or right down", and other keys are unchanged |
| HookProperties.ModifierUpdateKeepsLatchOff | Source/hook_include.cpp:158-184 | updating the modifiers never sets the not-physical latch |
| HookProperties.LatchSetOnlyByLazyShift | Source/hook_include.cpp:554-598 | after UpdateKeyState the latch is set only if it already was or cases 4/5 of the workaround held |
| HookProperties.SnapshotFollowsRollback | Source/hook_include.cpp:554-582 | the new snapshot is the physical state after any rollback and before the current event |
| HookProperties.WinLockResetNeedsOneWinKey | Source/hook_include.cpp:707-723 | the Win-L reset applies iff exactly one Win key alone is logically down, never both |
| HookProperties.RunAdvancesCursor | Source/hook_include.cpp:919-921 | over any run of events the cursor stays in the ring and ends at the start plus the number of handled events, modulo the ring size |
| HookProperties.IgnoredEventPassesThrough | Source/hook_include.cpp:989-994 | an event tagged ignore is allowed, logged with type 'i', and changes no key record, sends and posts nothing |
| HookProperties.DisguisedReleaseReplaced | Source/hook_include.cpp:1002-1030 | a Win/Alt release with a pending disguise is suppressed and sent again wrapped in Shift; the flag is consumed |
| HookProperties.PrefixRepeatExitsEarly | Source/hook_include.cpp:1052-1057 | a repeated press of the active prefix changes no record; it is suppressed unless it is a modifier |
| HookProperties.PlainKeyPasses | Source/hook_include.cpp:1066-1090 | a key that is neither prefix nor suffix is allowed (unless a pinned lock key), keeps the prefix, and only the held prefix's record may change, marked as used |
| HookProperties.SuffixReleaseSuppressedIffActed | Source/hook_include.cpp:1145-1177 | a suffix release is suppressed iff its press fired an action (or it is a pinned lock key); its record is cleared and the prefix kept |
| HookProperties.PrefixPressBecomesActive | Source/hook_include.cpp:1108-1137 | a prefix press becomes the active prefix, unused so far; only a modifier or neutral lock key keeps its native function |
| HookProperties.NeutralLockPrefixRestoresToggle | Source/hook_include.cpp:1207-1227 | a neutral lock prefix that fired a hotkey is released, pressed and released again, and suppressed |
| HookProperties.HeldPrefixNotReplacedBySuffix | Source/hook_include.cpp:1066-1108 | a suffix pressed while another prefix is held keeps that prefix, or an override's prefix takes over marked as having fired |
| HookProperties.SuffixPressKeepsPrefix | Source/hook_include.cpp:1299-1510 | case 4 on a press keeps the held prefix, or hands it to an override's prefix marked as having fired |
| HookProperties.FirePressKeepsPrefix | Source/hook_include.cpp:1754-1834 | a hotkey fired on a press keeps the prefix pointer; its use mark stays or becomes "fired a hotkey" |
| HookProperties.AltTabFromPrefixHoldsAlt | Source/hook_include.cpp:1337-1432 | Alt-Tab from a prefix leaves the prefix holding Alt, so that releasing it sends Alt up; the suffix records its action |
| HookProperties.AltTabFromPrefixMarksKeys | Source/hook_include.cpp:1337-1432 | Alt-Tab from a prefix keeps the prefix pointer, leaves the prefix holding Alt and the suffix marked as having performed an action |
| HookProperties.AltTabFromPrefixHoldsShift | Source/hook_include.cpp:1376-1430 | Shift-Alt-Tab from a key other than a numpad digit leaves the prefix holding Shift |
| HookProperties.AltTabFromPrefixKeepsUseMark | Source/hook_include.cpp:1337-1432 | Alt-Tab from a prefix does not change the prefix's use mark |
| HookProperties.PrefixReleaseDropsPointer | Source/hook_include.cpp:1184-1204 | releasing a prefix drops the pointer only if it is this key, sends the pending Alt/Shift releases first and clears both flags |
| HookProperties.VkOverrideComesFirst | Source/hook_include.cpp:1307-1317 | a held ModifierVK prefix decides the hotkey and becomes the active prefix |
| HookProperties.ScOverrideComesSecond | Source/hook_include.cpp:1320-1333 | ModifierSC is consulted only when no ModifierVK prefix is held |
| HookProperties.NoOverrideHeld | Source/hook_include.cpp:1307-1333 | with no override prefix held, the lookup changes nothing and names no hotkey |
| HookProperties.TableLookupIgnoresOwnModifier | Source/hook_include.cpp:1438-1442 | the table lookup does not depend on the key's own modifier bits |
| HookProperties.AltRetryOnlyWhileMenuShown | Source/hook_include.cpp:1443-1449 | the Alt-stripped retry is used only while the menu is shown and the first lookup found nothing |
| HookProperties.UpdateKeyStateRecordsPhysical | Source/hook_include.cpp:594-598 | the event is remembered as physical iff it is not injected and is not an LShift/Shift press the latch marks as driver-made; for a key configured as a modifier the latch has already been consumed, so such a press is remembered as physical |
| HookProperties.SuppressedKeyKeepsLogicalMask | Source/hook_include.cpp:651 | a suppressed key updates the tracker as a suppressed event, so the logical modifier mask is unchanged |
| HookProperties.StepDispatchesAfterBookkeeping | Source/hook_include.cpp:919-1102 | an event the hook acts on, not ignored and not a disguised release, is decided on the state after logging and tracking, for the cursor slot it was logged in |
| HookProperties.UsedPrefixReleaseSuppressed | Source/hook_include.cpp:1248-1255 | the release of a used prefix that is neither a neutral lock key nor a modifier is suppressed |
| HookProperties.UsedModifierPrefixRelease | Source/hook_include.cpp:1251-1253 | the release of a used modifier prefix is suppressed only as a pinned lock key, and is disguised iff the prefix fired a hotkey and the key is a Win or Alt key |
| HookProperties.NeutralLockPrefixUsedPasses | Source/hook_include.cpp:1233-1234 | a neutral lock prefix that was used without firing a hotkey passes (unless pinned) |
| HookProperties.UnusedPrefixRelease | Source/hook_include.cpp:1269-1274 | an unused prefix that is not a suffix is suppressed iff it is neither a modifier nor a neutral lock key (or is pinned), and is never disguised |
| HookProperties.UnusedSuffixPrefixNotDownPasses | Source/hook_include.cpp:1281-1289 | an unused prefix that is also a suffix and was not down passes (unless pinned) |
| HookProperties.NoHotkeyRelease | Source/hook_include.cpp:1458-1487 | a release that completes no hotkey is suppressed iff the key is neither a modifier nor a neutral lock key (or is pinned), and is never disguised |
| HookProperties.NoHotkeyPressPasses | Source/hook_include.cpp:1508 | a press that completes no hotkey passes (unless pinned) |
| HookProperties.FinishNeutralLockPrefixRelease | Source/hook_include.cpp:1757-1776 | after a hotkey, the release of a neutral lock prefix is suppressed and the key is pressed and released again to restore its toggle state |
| HookProperties.FinishModifierReleaseDisguised | Source/hook_include.cpp:1779-1784 | after a hotkey, a modifier release passes (unless pinned), disguised iff it is a Win or Alt key, and a disguised release sends Shift down, the key, Shift up |
| HookProperties.FinishOtherRelease | Source/hook_include.cpp:1787-1808 | after a hotkey, the release of any other key passes iff the hotkey is pass-through (and the key not pinned), and a pass-through hotkey first sends the key's press |
| HookProperties.FinishPressSends | Source/hook_include.cpp:1821-1834 | after a hotkey, a press sends the key pressed and released iff the hotkey is pass-through, then the Numlock restore for a Numlock press that is not ignored, and nothing else |
| HookProperties.HotkeyPressMarksKeys | Source/hook_include.cpp:1811-1819 | a hotkey fired on a press (not let through) suppresses it, sets down_performed_action, marks the prefix as having fired and posts the id unless it is an Alt-Tab id |

## Left out

- The window-title capture for the history (lines 934-938) is an OS query and is not modelled.
- The floating-point elapsed time in the history is replaced by the integer tick difference.
- `KeyEvent()` calls are appended to an output log; the hook being re-entered by the events it sends is not modelled.
- `CallNextHookEx` and `PostMessage` are outputs (the disposition and the `posted` log), not calls.
- `GetTickCount()` is one value per event (`e.tick`): the source reads it more than once per callback, and the model assumes the reads agree.
- `IsKeyToggledOn(VK_NUMLOCK)` and the OS-version checks are inputs (`e.numLockOn`, `Config.os`).
- Logging the history to a file is I/O and is not modelled.
- The mouse-hook branches of the same file are not part of this model.
- Setting up `kvk[]`/`ksc[]` and the `Kvkm`/`Kscm` tables happens outside this file; they are fixed configuration here.
- The hook's DWORD `vkCode` is taken as already truncated to the one-byte `vk_type`.
- The history records the normalised scan code, as the code does, although a nearby comment suggests otherwise.
- Showing the Alt-Tab menu sends a Tab press without its release, as the code does.
- HookModel.UpdateModifierState: its own contract only states that a key with no modifier slot changes nothing and that the numpad state, prior event and snapshot are kept; which bits and keys move is stated by the `HookProperties.ModifierUpdate*` lemmas about it.
- HookModel.SuppressThisKey: its own contract does not name the new tracker; HookProperties.SuppressedKeyKeepsLogicalMask states that it is the tracker updated as a suppressed event.
- HookModel.Finish: its own contract states only the press path; the release paths and what a pass-through hotkey sends are stated by HookProperties.FinishNeutralLockPrefixRelease, HookProperties.FinishModifierReleaseDisguised, HookProperties.FinishOtherRelease and HookProperties.FinishPressSends.
- HookModel.AltTabPrefixKeys: its contract states which keys the sequence contains and how it begins and ends, not the full order of the middle part.
- HookModel.AltTabStepKeys: its contract does not state that no key other than the suffix is released.
- HookModel.Dispatch: its own contract only says that the state is extended consistently; the early exit for a repeated prefix is stated by HookProperties.PrefixRepeatExitsEarly and the plain-key path by HookProperties.PlainKeyPasses.
- HookModel.PrefixSuffix: its own contract only says that the state is extended consistently; its press and suffix-release paths are stated by HookProperties.PrefixPressBecomesActive, HookProperties.SuffixReleaseSuppressedIffActed and HookProperties.HeldPrefixNotReplacedBySuffix.
- HookModel.PrefixUp: its own contract only says that the state is extended consistently and that a release changes the key records only by letting the prefix go; its paths are stated by HookProperties.PrefixReleaseDropsPointer, HookProperties.NeutralLockPrefixRestoresToggle, HookProperties.NeutralLockPrefixUsedPasses, HookProperties.UsedPrefixReleaseSuppressed, HookProperties.UsedModifierPrefixRelease, HookProperties.UnusedPrefixRelease and HookProperties.UnusedSuffixPrefixNotDownPasses; the path of an unused suffix prefix that was already down goes on to case 4 and is not stated separately.
- HookModel.TableLookup: its own contract does not state that the key's own modifier bits make no difference to the result; HookProperties.TableLookupIgnoresOwnModifier states it.
- HookModel.SuffixAction: its own contract only says that the state is extended consistently and that a release keeps the key records; its paths are stated by HookProperties.SuffixPressKeepsPrefix, the three override lemmas, HookProperties.TableLookupIgnoresOwnModifier, HookProperties.AltRetryOnlyWhileMenuShown, HookProperties.NoHotkeyRelease, HookProperties.NoHotkeyPressPasses and the AltTabFromPrefix lemmas.
- HookModel.Resolve: its own contract only says that the state is extended consistently and that a release keeps the key records; its lookup is stated by HookProperties.TableLookupIgnoresOwnModifier and HookProperties.AltRetryOnlyWhileMenuShown, the paths with no hotkey by HookProperties.NoHotkeyRelease and HookProperties.NoHotkeyPressPasses, and the path that fires a hotkey by the HookModel.Fire lemmas.
- HookModel.Fire: its own contract only says that the state is extended consistently and that a release keeps the key records; a press is stated by HookProperties.HotkeyPressMarksKeys and HookProperties.FirePressKeepsPrefix, a release by the Finish lemmas above; the case where the Alt-Tab switch lets the event through is stated only by HookModel.HotkeySwitch.
