/** LowLevelKeybdProc of Source/hook_include.cpp as the program runs it: the
    key records and the history ring are arrays written in place, the other
    statics and globals are fields, and each routine is a method proved to
    have exactly the effect of its function in HookModel. */
module Hook {
  import opened KeyCodes
  import opened HookModel
  import opened Tracking

  class HookState {
    /** kvk[]/ksc[] static halves, the hotkey tables, g_vk_to_sc and g_os. */
    const cfg: Config
    const tracker: KeyTracker

    const vkState: array<KeyState>       // kvk[] runtime fields
    const scState: array<KeyState>       // ksc[] runtime fields
    var prefixKey: Option<KeyRef>        // pPrefixKey
    var altTabMenuIsVisible: bool        // alt_tab_menu_is_visible
    var disguise: DisguiseNext           // disguise_next_*_up

    const history: array<HistoryItem>    // g_KeyHistory
    var historyNext: nat                 // g_KeyHistoryNext
    var historyTickPrev: bv32            // g_HistoryTickPrev

    var sent: seq<SentKey>               // KeyEvent() calls so far
    var posted: seq<bv16>                // AHK_HOOK_HOTKEY messages so far

    ghost predicate Valid()
      reads this, tracker
    {
      ValidConfig(cfg) && tracker.Valid()
      && vkState.Length == 256 && scState.Length == 512 && vkState != scState
      && 0 < history.Length && historyNext < history.Length
    }

    ghost function Abs(): (s: State)
      reads this, tracker, tracker.physKey, tracker.padState, vkState, scState, history
      ensures Valid() ==> WellFormed(s) && |s.history.items| == history.Length
    {
      State(tracker.Tr(), vkState[..], scState[..], prefixKey, altTabMenuIsVisible, disguise,
            KeyHistory(history[..], historyNext, historyTickPrev), sent, posted)
    }

    /** The hook's state when it is installed, with a history ring of the
        given capacity. */
    constructor (config: Config, capacity: nat)
      requires ValidConfig(config) && 0 < capacity
      ensures Valid() && cfg == config && Abs() == InitialState(capacity)
      ensures fresh(tracker) && fresh(tracker.physKey) && fresh(tracker.padState)
      ensures fresh(vkState) && fresh(scState) && fresh(history)
    {
      cfg := config;
      tracker := new KeyTracker();
      vkState := new KeyState[256](_ => NoKeyState);
      scState := new KeyState[512](_ => NoKeyState);
      prefixKey := None;
      altTabMenuIsVisible := false;
      disguise := DisguiseNext(false, false, false, false);
      history := new HistoryItem[capacity](_ => NoHistoryItem);
      historyNext, historyTickPrev := 0, 0;
      sent, posted := [], [];
    }

    // -------------------------------------------------------------------
    // Small steps every routine below is built from.

    /** UpdateKeyState on the tracker; nothing else changes. */
    method UpdateKeyState(e: KeyboardEvent, sc: SC, suppressed: bool)
      requires Valid()
      modifies tracker, tracker.physKey
      ensures Valid()
      ensures Abs() == old(Abs()).(tracker := HookModel.UpdateKeyState(cfg, old(Abs()).tracker, e, sc, suppressed))
    {
      tracker.UpdateKeyState(cfg, e, sc, suppressed);
    }

    /** KeyEvent() calls, in order. */
    method KeyEvents(keys: seq<SentKey>)
      requires Valid()
      modifies this
      ensures Valid()
      ensures Abs() == Send(old(Abs()), keys)
    {
      sent := sent + keys;
    }

    /** The history entry's event type. */
    method MarkHistory(cur: nat, t: char)
      requires Valid() && cur < history.Length
      modifies history
      ensures Valid()
      ensures Abs() == SetEventType(old(Abs()), cur, t)
    {
      history[cur] := history[cur].(eventType := t);
    }

    /** Reads a key record. */
    method GetRec(k: KeyRef) returns (ks: KeyState)
      requires Valid()
      ensures ks == Rec(Abs(), k)
    {
      match k
      case VkKey(v) => ks := vkState[v];
      case ScKey(c) => ks := scState[c];
    }

    /** Writes a key record. */
    method SetRec(k: KeyRef, ks: KeyState)
      requires Valid()
      modifies vkState, scState
      ensures Valid()
      ensures Abs() == WithRec(old(Abs()), k, ks)
    {
      match k
      case VkKey(v) => vkState[v] := ks;
      case ScKey(c) => scState[c] := ks;
    }

    // -------------------------------------------------------------------
    // SuppressThisKeyFunc (lines 607-670) and AllowIt (lines 679-804)

    method SuppressThisKey(e: KeyboardEvent, sc: SC, cur: nat)
      requires Valid() && cur < history.Length
      modifies this, tracker, tracker.physKey, history
      ensures Valid()
      ensures Abs() == HookModel.SuppressThisKey(cfg, old(Abs()), e, sc, cur)
    {
      ghost var s := Abs();
      if history[cur].eventType == ' ' {
        MarkHistory(cur, 's');
      }
      ghost var s1 := Abs();
      assert s1 == if s.history.items[cur].eventType == ' ' then SetEventType(s, cur, 's') else s;
      if e.vk == VK_NUMLOCK && !e.keyUp && !e.ignore {
        KeyEvents(NumLockRestore);
      }
      ghost var s2 := Abs();
      assert s2 == if e.vk == VK_NUMLOCK && !e.keyUp && !e.ignore then Send(s1, NumLockRestore) else s1;
      UpdateKeyState(e, sc, true);
    }

    method AllowIt(e: KeyboardEvent, sc: SC, cur: nat, disguiseWinAlt: bool) returns (d: Disposition)
      requires Valid() && cur < history.Length
      modifies this, tracker, tracker.physKey, history
      ensures Valid()
      ensures Outcome(Abs(), d) == HookModel.AllowIt(cfg, old(Abs()), e, sc, cur, disguiseWinAlt)
    {
      var kc := cfg.vkKeys[e.vk];
      if !e.ignore && TogglePinned(kc) {
        SuppressThisKey(e, sc, cur);
        return Suppress;
      }
      UpdateAllowedKeyState(e, sc);
      if kc.asModifiersLR == 0 {
        return Allow;
      }
      d := PassModifier(e, sc, cur, disguiseWinAlt);
    }

    /** Lines 764-803. */
    method PassModifier(e: KeyboardEvent, sc: SC, cur: nat, disguiseWinAlt: bool) returns (d: Disposition)
      requires Valid() && cur < history.Length
      modifies this, history
      ensures Valid()
      ensures Outcome(Abs(), d) == HookModel.PassModifier(cfg, old(Abs()), e, sc, cur, disguiseWinAlt)
    {
      ghost var s3 := Abs();
      if altTabMenuIsVisible && IsAlt(e.vk) && e.keyUp
         && history[cur].eventType != 'h' && history[cur].eventType != 's' {
        altTabMenuIsVisible := false;
      }
      ghost var s4 := Abs();
      assert s4 == if s3.altTabMenuIsVisible && IsAlt(e.vk) && e.keyUp
                      && s3.history.items[cur].eventType != 'h' && s3.history.items[cur].eventType != 's'
                   then s3.(altTabMenuIsVisible := false) else s3;
      if disguiseWinAlt && e.keyUp && IsWinOrAlt(e.vk) {
        KeyEvents(DisguisedRelease(e, sc));
        if history[cur].eventType != 'h' {
          MarkHistory(cur, 's');
        }
        return AllowDisguised;
      }
      return Allow;
    }

    /** Lines 700-761: the key state update of a key that is let through,
        then the Win-L and Ctrl-Alt-Del resets. */
    method UpdateAllowedKeyState(e: KeyboardEvent, sc: SC)
      requires Valid()
      modifies tracker, tracker.physKey
      ensures Valid()
      ensures Abs() == old(Abs()).(tracker := CtrlAltDelResetApplied(cfg,
                         WinLockResetApplied(cfg, HookModel.UpdateKeyState(cfg, old(Abs()).tracker, e, sc, false), e), e))
    {
      tracker.UpdateKeyState(cfg, e, sc, false);
      tracker.WinLockReset(cfg, e);
      tracker.CtrlAltDelReset(cfg, e);
    }

    /** A modifier or a neutral lock key keeps its native function; any
        other key is suppressed. */
    method NativeOrSuppress(e: KeyboardEvent, sc: SC, cur: nat, kc: KeyConfig) returns (d: Disposition)
      requires Valid() && cur < history.Length
      modifies this, tracker, tracker.physKey, history
      ensures Valid()
      ensures Outcome(Abs(), d) == HookModel.NativeOrSuppress(cfg, old(Abs()), e, sc, cur, kc)
    {
      if KeepsNativeFunction(kc) {
        d := AllowIt(e, sc, cur, false);
      } else {
        SuppressThisKey(e, sc, cur);
        d := Suppress;
      }
    }

    // -------------------------------------------------------------------
    // Prefix and suffix handling (lines 1045-1293)

    /** Lines 1052-1102. */
    method Dispatch(e: KeyboardEvent, sc: SC, cur: nat) returns (d: Disposition)
      requires Valid() && cur < history.Length
      modifies this, tracker, tracker.physKey, vkState, scState, history
      ensures Valid()
      ensures Outcome(Abs(), d) == HookModel.Dispatch(cfg, old(Abs()), e, sc, cur)
    {
      var k := ThisKey(cfg, e, sc);
      var kc := KeyCfg(cfg, k);
      if prefixKey == Some(k) && !e.keyUp {
        d := NativeOrSuppressModifier(e, sc, cur, kc);
        return;
      }
      if prefixKey.Some? && !e.keyUp && kc.asModifiersLR == 0 {
        var p := GetRec(prefixKey.value);
        SetRec(prefixKey.value, p.(wasJustUsed := AsPrefix));
      }
      if !kc.usedAsPrefix && !kc.usedAsSuffix {
        d := AllowIt(e, sc, cur, false);
        return;
      }
      var rec := GetRec(k);
      var wasDownBeforeUp := rec.isDown;
      var downPerformedAction := rec.downPerformedAction;
      NoteKeyDown(k, e.keyUp);
      d := PrefixSuffix(e, sc, cur, k, wasDownBeforeUp, downPerformedAction);
    }

    /** Lines 1093-1100. */
    method NoteKeyDown(k: KeyRef, keyUp: bool)
      requires Valid()
      modifies vkState, scState
      ensures Valid()
      ensures Abs() == HookModel.NoteKeyDown(old(Abs()), k, keyUp)
    {
      var rec := GetRec(k);
      if keyUp {
        SetRec(k, rec.(downPerformedAction := false));
      }
      rec := GetRec(k);
      SetRec(k, rec.(isDown := !keyUp));
    }

    /** Lines 1052-1057: a repeat of the active prefix passes if it is a
        modifier and is suppressed otherwise. */
    method NativeOrSuppressModifier(e: KeyboardEvent, sc: SC, cur: nat, kc: KeyConfig) returns (d: Disposition)
      requires Valid() && cur < history.Length
      modifies this, tracker, tracker.physKey, history
      ensures Valid()
      ensures Outcome(Abs(), d) == if kc.asModifiersLR != 0 then HookModel.AllowIt(cfg, old(Abs()), e, sc, cur, false)
                                   else Suppressed(cfg, old(Abs()), e, sc, cur)
    {
      if kc.asModifiersLR != 0 {
        d := AllowIt(e, sc, cur, false);
      } else {
        SuppressThisKey(e, sc, cur);
        d := Suppress;
      }
    }

    /** Cases 1-3 (lines 1108-1293). */
    method PrefixSuffix(e: KeyboardEvent, sc: SC, cur: nat, k: KeyRef, wasDownBeforeUp: bool, downPerformedAction: bool)
      returns (d: Disposition)
      requires Valid() && cur < history.Length
      modifies this, tracker, tracker.physKey, vkState, scState, history
      ensures Valid()
      ensures Outcome(Abs(), d) == HookModel.PrefixSuffix(cfg, old(Abs()), e, sc, cur, k, wasDownBeforeUp, downPerformedAction)
    {
      var kc := KeyCfg(cfg, k);
      if kc.usedAsPrefix && !e.keyUp && (prefixKey.None? || !kc.usedAsSuffix) {
        prefixKey := Some(k);
        var rec := GetRec(k);
        SetRec(k, rec.(wasJustUsed := NotUsed));
        d := NativeOrSuppress(e, sc, cur, kc);
      } else if kc.usedAsSuffix && prefixKey != Some(k) && e.keyUp {
        if downPerformedAction {
          SuppressThisKey(e, sc, cur);
          d := Suppress;
        } else {
          d := AllowIt(e, sc, cur, false);
        }
      } else if kc.usedAsPrefix && e.keyUp {
        d := PrefixUp(e, sc, cur, k, wasDownBeforeUp);
      } else {
        d := SuffixAction(e, sc, cur, k);
      }
    }

    /** Lines 1184-1204. */
    method ReleasePrefix(k: KeyRef)
      requires Valid()
      modifies this, vkState, scState
      ensures Valid()
      ensures Abs() == HookModel.ReleasePrefix(old(Abs()), k)
    {
      var ks := GetRec(k);
      if prefixKey == Some(k) {
        prefixKey := None;
      }
      SetRec(k, ks.(itPutAltDown := false, itPutShiftDown := false));
      KeyEvents((if ks.itPutAltDown then [Up(VK_MENU)] else []) + (if ks.itPutShiftDown then [Up(VK_SHIFT)] else []));
    }

    /** Case 3 (lines 1182-1293). */
    method PrefixUp(e: KeyboardEvent, sc: SC, cur: nat, k: KeyRef, wasDownBeforeUp: bool) returns (d: Disposition)
      requires Valid() && cur < history.Length
      modifies this, tracker, tracker.physKey, vkState, scState, history
      ensures Valid()
      ensures Outcome(Abs(), d) == HookModel.PrefixUp(cfg, old(Abs()), e, sc, cur, k, wasDownBeforeUp)
    {
      var kc := KeyCfg(cfg, k);
      ReleasePrefix(k);
      var rec := GetRec(k);
      var used := rec.wasJustUsed;
      if kc.forceToggle == Some(Neutral) && used == AsPrefixForHotkey {
        KeyEvents(ToggleRestore(e, sc));
        SuppressThisKey(e, sc, cur);
        d := Suppress;
      } else if kc.forceToggle == Some(Neutral) && used == AsPrefix {
        d := AllowIt(e, sc, cur, false);
      } else if kc.forceToggle != Some(Neutral) && used != NotUsed {
        if kc.asModifiersLR != 0 {
          d := AllowIt(e, sc, cur, used == AsPrefixForHotkey);
        } else {
          SuppressThisKey(e, sc, cur);
          d := Suppress;
        }
      } else if !kc.usedAsSuffix {
        d := NativeOrSuppress(e, sc, cur, kc);
      } else if !wasDownBeforeUp {
        d := AllowIt(e, sc, cur, false);
      } else {
        d := SuffixAction(e, sc, cur, k);
      }
    }

    // -------------------------------------------------------------------
    // Case 4: which hotkey the key completes (lines 1299-1510)

    /** Lines 1307-1317: the first ModifierVK entry whose prefix is down. */
    method FindVkOverride(list: seq<VkOverride>) returns (r: Option<nat>)
      requires Valid()
      ensures r == FirstDownVk(list, vkState[..])
    {
      var i := 0;
      while i < |list|
        invariant 0 <= i <= |list|
        invariant forall j :: 0 <= j < i ==> !vkState[list[j].vk].isDown
      {
        if vkState[list[i].vk].isDown {
          return Some(i);
        }
        i := i + 1;
      }
      return None;
    }

    /** Lines 1320-1330: the first ModifierSC entry whose prefix is down. */
    method FindScOverride(list: seq<ScOverride>) returns (r: Option<nat>)
      requires Valid()
      ensures r == FirstDownSc(list, scState[..])
    {
      var i := 0;
      while i < |list|
        invariant 0 <= i <= |list|
        invariant forall j :: 0 <= j < i ==> !scState[list[j].sc].isDown
      {
        if scState[list[i].sc].isDown {
          return Some(i);
        }
        i := i + 1;
      }
      return None;
    }

    /** Lines 1307-1332. */
    method OverrideLookup(k: KeyRef) returns (c: HotkeyChoice)
      requires Valid()
      modifies this, vkState, scState
      ensures Valid()
      ensures Lookup(Abs(), c) == HookModel.OverrideLookup(cfg, old(Abs()), k)
    {
      var kc := KeyCfg(cfg, k);
      c := HotkeyChoice(HOTKEY_ID_INVALID, false);
      var iv := FindVkOverride(kc.modifierVK);
      if iv.Some? {
        var p := VkKey(kc.modifierVK[iv.value].vk);
        prefixKey := Some(p);
        var rec := GetRec(p);
        SetRec(p, rec.(wasJustUsed := AsPrefixForHotkey));
        c := SplitHotkeyId(kc.modifierVK[iv.value].idWithFlags);
      }
      if c.id == HOTKEY_ID_INVALID {
        var found := FindScOverride(kc.modifierSC);
        if found.Some? {
          var p := ScKey(kc.modifierSC[found.value].sc);
          prefixKey := Some(p);
          var rec := GetRec(p);
          SetRec(p, rec.(wasJustUsed := AsPrefixForHotkey));
          c := SplitHotkeyId(kc.modifierSC[found.value].idWithFlags);
        }
      }
    }

    /** Case 4 (lines 1299-1510). */
    method SuffixAction(e: KeyboardEvent, sc: SC, cur: nat, k: KeyRef) returns (d: Disposition)
      requires Valid() && cur < history.Length
      modifies this, tracker, tracker.physKey, vkState, scState, history
      ensures Valid()
      ensures Outcome(Abs(), d) == HookModel.SuffixAction(cfg, old(Abs()), e, sc, cur, k)
    {
      if prefixKey.Some? && !e.keyUp {
        var c := OverrideLookup(k);
        if c.id == HOTKEY_ID_ALT_TAB || c.id == HOTKEY_ID_ALT_TAB_SHIFT {
          AltTabFromPrefix(e, sc, cur, k, c.id);
          d := Suppress;
        } else {
          d := Resolve(e, sc, cur, k, c);
        }
      } else {
        d := Resolve(e, sc, cur, k, HotkeyChoice(HOTKEY_ID_INVALID, false));
      }
    }

    /** Lines 1337-1432. */
    method AltTabFromPrefix(e: KeyboardEvent, sc: SC, cur: nat, k: KeyRef, id: bv16)
      requires Valid() && cur < history.Length && prefixKey.Some?
      modifies this, tracker, tracker.physKey, vkState, scState, history
      ensures Valid()
      ensures Outcome(Abs(), Suppress) == HookModel.AltTabFromPrefix(cfg, old(Abs()), e, sc, cur, k, id)
    {
      var m := tracker.modLogical;
      var rec := GetRec(k);
      SetRec(k, rec.(downPerformedAction := true));
      var p := prefixKey.value;
      var prec := GetRec(p);
      var shiftFlag := if id == HOTKEY_ID_ALT_TAB_SHIFT then !IsNumpadDigitOrDecimal(e.vk) else prec.itPutShiftDown;
      SetRec(p, prec.(itPutAltDown := true, itPutShiftDown := shiftFlag));
      KeyEvents(AltTabPrefixKeys(m, e, sc, id == HOTKEY_ID_ALT_TAB_SHIFT));
      MarkHistory(cur, 'h');
      SuppressThisKey(e, sc, cur);
    }

    /** Lines 1436-1510. */
    method Resolve(e: KeyboardEvent, sc: SC, cur: nat, k: KeyRef, c: HotkeyChoice) returns (d: Disposition)
      requires Valid() && cur < history.Length
      modifies this, tracker, tracker.physKey, vkState, scState, history
      ensures Valid()
      ensures Outcome(Abs(), d) == HookModel.Resolve(cfg, old(Abs()), e, sc, cur, k, c)
    {
      var kc := KeyCfg(cfg, k);
      var c1 := c;
      if c.id == HOTKEY_ID_INVALID {
        c1 := TableLookup(cfg, tracker.modLogical, altTabMenuIsVisible, e, sc, kc);
      }
      if c1.id == HOTKEY_ID_INVALID {
        if e.keyUp {
          d := NativeOrSuppress(e, sc, cur, kc);
        } else {
          d := AllowIt(e, sc, cur, false);
        }
      } else {
        d := Fire(e, sc, cur, k, c1);
      }
    }

    // -------------------------------------------------------------------
    // A hotkey fires (lines 1517-1834)

    method Fire(e: KeyboardEvent, sc: SC, cur: nat, k: KeyRef, c: HotkeyChoice) returns (d: Disposition)
      requires Valid() && cur < history.Length
      modifies this, tracker, tracker.physKey, vkState, scState, history
      ensures Valid()
      ensures Outcome(Abs(), d) == HookModel.Fire(cfg, old(Abs()), e, sc, cur, k, c)
    {
      var m := tracker.modLogical;
      SetDisguise(m);
      var allowNow := HotkeySwitchArm(e, m, KeyCfg(cfg, k).asModifiersLR != 0, c.id);
      if allowNow {
        d := AllowIt(e, sc, cur, false);
      } else {
        d := Finish(e, sc, cur, k, c.noSuppress);
      }
    }

    /** Lines 1517-1539. */
    method SetDisguise(m: bv8)
      requires Valid()
      modifies this
      ensures Valid()
      ensures Abs() == old(Abs()).(disguise := SetDisguiseFlags(cfg, m, old(disguise)))
    {
      disguise := SetDisguiseFlags(cfg, m, disguise);
    }

    /** The switch of lines 1541-1752: events sent, menu flag, message posted. */
    method HotkeySwitchArm(e: KeyboardEvent, m: bv8, isModifier: bool, id: bv16) returns (allowNow: bool)
      requires Valid()
      modifies this
      ensures Valid()
      ensures var a := HotkeySwitch(m, old(altTabMenuIsVisible), e, isModifier, id);
              allowNow == a.allowNow
              && Abs() == old(Abs()).(sent := old(sent) + a.keys, posted := old(posted) + a.post,
                                      altTabMenuIsVisible := a.menuVisible)
    {
      var a := HotkeySwitch(m, altTabMenuIsVisible, e, isModifier, id);
      sent := sent + a.keys;
      posted := posted + a.post;
      altTabMenuIsVisible := a.menuVisible;
      allowNow := a.allowNow;
    }

    method Finish(e: KeyboardEvent, sc: SC, cur: nat, k: KeyRef, noSuppress: bool) returns (d: Disposition)
      requires Valid() && cur < history.Length
      modifies this, tracker, tracker.physKey, vkState, scState, history
      ensures Valid()
      ensures Outcome(Abs(), d) == HookModel.Finish(cfg, old(Abs()), e, sc, cur, k, noSuppress)
    {
      MarkHistory(cur, 'h');
      var kc := KeyCfg(cfg, k);
      if kc.forceToggle == Some(Neutral) && kc.usedAsPrefix && e.keyUp {
        KeyEvents(ToggleRestore(e, sc));
        SuppressThisKey(e, sc, cur);
        d := Suppress;
      } else if kc.asModifiersLR != 0 && e.keyUp {
        d := AllowIt(e, sc, cur, true);
      } else if e.keyUp {
        if noSuppress {
          KeyEvents([SentKey(KeyDown, e.vk, sc)]);
          d := AllowIt(e, sc, cur, false);
        } else {
          SuppressThisKey(e, sc, cur);
          d := Suppress;
        }
      } else {
        var rec := GetRec(k);
        SetRec(k, rec.(downPerformedAction := true));
        if prefixKey.Some? {
          var p := GetRec(prefixKey.value);
          SetRec(prefixKey.value, p.(wasJustUsed := AsPrefixForHotkey));
        }
        if noSuppress {
          KeyEvents([SentKey(KeyDownAndUp, e.vk, sc)]);
        }
        SuppressThisKey(e, sc, cur);
        d := Suppress;
      }
    }

    // -------------------------------------------------------------------
    // LowLevelKeybdProc (lines 822-1834)

    /** Lines 919-981. */
    method Bookkeeping(e: KeyboardEvent, sc: SC)
      requires Valid()
      modifies this, tracker, tracker.physKey, tracker.padState, history
      ensures Valid()
      ensures Abs() == HookModel.Bookkeeping(cfg, old(Abs()), e, sc)
    {
      RecordHistory(e, sc);
      tracker.TrackNumpad(e, sc);
      altTabMenuIsVisible := NoteAltTabMenu(altTabMenuIsVisible, tracker.modLogical, e);
      tracker.TrackPhysicalKey(cfg, e);
    }

    /** Lines 919-933. */
    method RecordHistory(e: KeyboardEvent, sc: SC)
      requires Valid()
      modifies this, history
      ensures Valid()
      ensures Abs() == old(Abs()).(history := HookModel.RecordHistory(old(Abs()).history, e, sc))
    {
      var cur := historyNext;
      historyNext := if historyNext + 1 >= history.Length then 0 else historyNext + 1;
      history[cur] := HistoryItem(e.vk, sc, e.keyUp, if e.ignore then 'i' else ' ', TicksSince(e.tick, historyTickPrev));
      historyTickPrev := e.tick;
    }

    method LowLevelKeybdProc(e: KeyboardEvent) returns (d: Disposition)
      requires Valid()
      modifies this, tracker, tracker.physKey, tracker.padState, vkState, scState, history
      ensures Valid()
      ensures Outcome(Abs(), d) == Step(cfg, old(Abs()), e)
    {
      if !e.hcAction {
        return Allow;
      }
      var sc := NormalizeScanCode(e.vk, e.scanCode, e.extended, cfg.vkToSc);
      var cur := historyNext;
      Bookkeeping(e, sc);
      if e.ignore {
        d := AllowIt(e, sc, cur, false);
        return;
      }
      if DisguiseUpPending(disguise, e) {
        disguise := ClearDisguise(disguise, e.vk);
        KeyEvents([Down(VK_SHIFT), SentKey(KeyUp, e.vk, sc), Up(VK_SHIFT)]);
        SuppressThisKey(e, sc, cur);
        return Suppress;
      }
      d := Dispatch(e, sc, cur);
    }
  }
}
