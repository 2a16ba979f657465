/** The statics of Source/hook_include.cpp that follow the modifier keys and
    the physical key state (lines 93-102 and the globals they update), as one
    object.  Each method is proved to have exactly the effect of its
    function in HookModel on the Tracker value the object stands for. */
module Tracking {
  import opened KeyCodes
  import opened HookModel

  class KeyTracker {
    var modLogical: bv8                  // g_modifiersLR_logical
    var modPhysical: bv8                 // g_modifiersLR_physical
    const physKey: array<bool>           // g_PhysicalKeyState
    const padState: array<bool>          // pad_state
    var notPhysLatch: bool               // next_phys_shift_down_is_not_phys
    var priorVk: VK                      // prior_vk
    var priorSc: SC                      // prior_sc
    var priorKeyUp: bool                 // prior_event_was_key_up
    var priorPhysical: bool              // prior_event_was_physical
    var priorTick: bv32                  // prior_event_tickcount
    var priorModPhysical: bv8            // prior_modifiersLR_physical
    var priorShift: bool                 // prior_shift_state
    var priorLShift: bool                // prior_lshift_state
    var timeLastInputPhysical: bv32      // g_TimeLastInputPhysical

    ghost predicate Valid()
      reads this
    {
      physKey.Length == 256 && padState.Length == PAD_TOTAL_COUNT && physKey != padState
    }

    ghost function Tr(): (t: Tracker)
      reads this, physKey, padState
      ensures Valid() ==> TrackerOk(t)
    {
      Tracker(modLogical, modPhysical, physKey[..], padState[..], notPhysLatch,
              PriorEvent(priorVk, priorSc, priorKeyUp, priorPhysical, priorTick),
              ShiftSnapshot(priorModPhysical, priorShift, priorLShift), timeLastInputPhysical)
    }

    /** Everything up and nothing held, as when the hook is installed. */
    constructor ()
      ensures Valid() && Tr() == InitialState(1).tracker
      ensures fresh(physKey) && fresh(padState)
    {
      modLogical, modPhysical := 0, 0;
      physKey := new bool[256](_ => false);
      padState := new bool[PAD_TOTAL_COUNT](_ => false);
      notPhysLatch := false;
      priorVk, priorSc, priorKeyUp, priorPhysical, priorTick := 0, 0, false, false, 0;
      priorModPhysical, priorShift, priorLShift := 0, false, false;
      timeLastInputPhysical := 0;
    }

    /** DualStateNumpadKeyIsDown (lines 107-121). */
    method DualStateNumpadKeyIsDown() returns (r: bool)
      requires Valid()
      ensures r == PadDown(padState[..])
    {
      var i := 0;
      while i < PAD_TOTAL_COUNT
        invariant 0 <= i <= PAD_TOTAL_COUNT
        invariant forall j :: 0 <= j < i ==> !padState[j]
      {
        if padState[i] {
          assert padState[..][i];
          return true;
        }
        i := i + 1;
      }
      return false;
    }

    /** EventIsPhysical (lines 158-184). */
    method EventIsPhysical(e: KeyboardEvent) returns (phys: bool)
      requires Valid()
      modifies this
      ensures Valid()
      ensures (phys, Tr()) == HookModel.EventIsPhysical(old(Tr()), e)
    {
      if e.injected {
        return false;
      }
      if (e.vk == VK_LSHIFT || e.vk == VK_SHIFT) && !e.keyUp {
        if notPhysLatch {
          var padDown := DualStateNumpadKeyIsDown();
          if !padDown {
            notPhysLatch := false;
            return false;
          }
        }
        if priorKeyUp && IsDualStateNumpadKey(priorVk, priorSc) && WithinShiftTimeout(e.tick, priorTick) {
          return false;
        }
      }
      timeLastInputPhysical := e.time;
      return true;
    }

    /** The physical side of a modifier event: its own entry follows the
        event and the neutral entry is down iff either side is. */
    method PressPhysical(slot: Slot, down: bool)
      requires Valid() && slot.key != slot.other
      requires slot.neutral.Some? ==> slot.neutral.value != slot.key && slot.neutral.value != slot.other
      modifies physKey
      ensures physKey[..] == HookModel.PressPhysical(old(physKey[..]), slot, down)
    {
      physKey[slot.key] := down;
      match slot.neutral {
        case None =>
        case Some(n) => physKey[n] := if down then true else physKey[slot.other];
      }
    }

    /** UpdateModifierState (lines 198-544). */
    method UpdateModifierState(e: KeyboardEvent, sc: SC, suppressed: bool)
      requires Valid()
      modifies this, physKey
      ensures Valid()
      ensures Tr() == HookModel.UpdateModifierState(old(Tr()), e, sc, suppressed)
    {
      match ModifierSlot(e.vk, sc)
      case None =>
      case Some(slot) =>
        if !suppressed {
          modLogical := SetModifierBit(modLogical, slot.bit, !e.keyUp);
        }
        PhysicalModifierUpdate(e, slot);
    }

    /** The physical half: the mask bit and the key entries of a physical
        event. */
    method PhysicalModifierUpdate(e: KeyboardEvent, slot: Slot)
      requires Valid() && slot.key != slot.other
      requires slot.neutral.Some? ==> slot.neutral.value != slot.key && slot.neutral.value != slot.other
      modifies this, physKey
      ensures Valid()
      ensures Tr() == HookModel.PhysicalModifierUpdate(old(Tr()), e, slot)
    {
      var phys := EventIsPhysical(e);
      if phys {
        modPhysical := SetModifierBit(modPhysical, slot.bit, !e.keyUp);
        PressPhysical(slot, !e.keyUp);
      }
    }

    /** The physical shift state goes back to the snapshot taken before
        the previous event. */
    method RestoreShiftSnapshot()
      requires Valid()
      modifies this, physKey
      ensures Valid()
      ensures Tr() == old(Tr()).(modPhysical := priorModPhysical,
                                 physKey := old(physKey[..])[VK_SHIFT := priorShift][VK_LSHIFT := priorLShift])
    {
      modPhysical := priorModPhysical;
      physKey[VK_SHIFT] := priorShift;
      physKey[VK_LSHIFT] := priorLShift;
    }

    /** Lines 554-573. */
    method RollBackShift(e: KeyboardEvent, sc: SC)
      requires Valid()
      modifies this, physKey
      ensures Valid()
      ensures Tr() == HookModel.RollBackShift(old(Tr()), e, sc)
    {
      if priorPhysical && (priorVk == VK_LSHIFT || priorVk == VK_SHIFT) && WithinShiftTimeout(e.tick, priorTick) {
        ghost var t := Tr();
        var currentIsDualState := IsDualStateNumpadKey(e.vk, sc);
        var fixIt := false;
        if !priorKeyUp {
          fixIt := DualStateNumpadKeyIsDown();
        }
        fixIt := fixIt || (priorKeyUp && e.keyUp && currentIsDualState);
        assert fixIt == ((!t.prior.keyUp && PadDown(t.padState)) || (t.prior.keyUp && e.keyUp && currentIsDualState));
        if fixIt {
          notPhysLatch := true;
        }
        if fixIt || (priorKeyUp && currentIsDualState) {
          RestoreShiftSnapshot();
        }
      }
    }

    /** Lines 576-578: the physical shift state before this event, kept for
        a later rollback. */
    method TakeShiftSnapshot()
      requires Valid()
      modifies this
      ensures Valid()
      ensures Tr() == old(Tr()).(snap := ShiftSnapshot(modPhysical, physKey[VK_SHIFT], physKey[VK_LSHIFT]))
    {
      priorModPhysical := modPhysical;
      priorShift := physKey[VK_SHIFT];
      priorLShift := physKey[VK_LSHIFT];
    }

    /** Lines 590-598: this event becomes the prior event. */
    method RememberEvent(e: KeyboardEvent, sc: SC)
      requires Valid()
      modifies this
      ensures Valid()
      ensures Tr() == HookModel.RememberEvent(old(Tr()), e, sc)
    {
      priorVk, priorSc, priorKeyUp := e.vk, sc, e.keyUp;
      var phys := EventIsPhysical(e);
      priorPhysical := phys;
      priorTick := e.tick;
    }

    /** UpdateKeyState (lines 548-599). */
    method UpdateKeyState(cfg: Config, e: KeyboardEvent, sc: SC, suppressed: bool)
      requires Valid() && ValidConfig(cfg)
      modifies this, physKey
      ensures Valid()
      ensures Tr() == HookModel.UpdateKeyState(cfg, old(Tr()), e, sc, suppressed)
    {
      RollBackShift(e, sc);
      TakeShiftSnapshot();
      if cfg.vkKeys[e.vk].asModifiersLR != 0 {
        UpdateModifierState(e, sc, suppressed);
      }
      RememberEvent(e, sc);
    }

    /** Lines 945-961. */
    method TrackNumpad(e: KeyboardEvent, sc: SC)
      requires Valid()
      modifies padState
      ensures Tr() == HookModel.TrackNumpad(old(Tr()), e, sc)
    {
      if !IsExtended(sc) && e.numLockOn {
        match PadIndex(e.vk) {
          case Some(i) => padState[i] := !e.keyUp;
          case None =>
        }
      }
    }

    /** Lines 980-981. */
    method TrackPhysicalKey(cfg: Config, e: KeyboardEvent)
      requires Valid() && ValidConfig(cfg)
      modifies this, physKey
      ensures Valid()
      ensures Tr() == HookModel.TrackPhysicalKey(cfg, old(Tr()), e)
    {
      if cfg.vkKeys[e.vk].asModifiersLR == 0 {
        var phys := EventIsPhysical(e);
        if phys {
          physKey[e.vk] := !e.keyUp;
        }
      }
    }

    /** Lines 707-723. */
    method WinLockReset(cfg: Config, e: KeyboardEvent)
      requires Valid()
      modifies this, physKey
      ensures Valid()
      ensures Tr() == WinLockResetApplied(cfg, old(Tr()), e)
    {
      if e.vk == VK_L && !e.keyUp && HookModel.WinLockReset(modLogical) && cfg.os.isWinXPorLater {
        modLogical, modPhysical := 0, 0;
        physKey[e.vk] := false;
        physKey[VK_LWIN] := false;
        physKey[VK_RWIN] := false;
      }
    }

    /** Lines 728-761. */
    method CtrlAltDelReset(cfg: Config, e: KeyboardEvent)
      requires Valid()
      modifies this, physKey
      ensures Valid()
      ensures Tr() == CtrlAltDelResetApplied(cfg, old(Tr()), e)
    {
      if (e.vk == VK_DELETE || e.vk == VK_DECIMAL) && !e.keyUp && CtrlAltDelHeld(modPhysical)
         && (cfg.os.isWin2000 || cfg.os.isWinNT4) {
        modLogical, modPhysical := 0, 0;
        physKey[e.vk] := false;
        physKey[VK_LCONTROL] := false;
        physKey[VK_RCONTROL] := false;
        physKey[VK_LMENU] := false;
        physKey[VK_RMENU] := false;
      }
    }
  }
}
