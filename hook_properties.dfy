/** Properties of the keyboard hook that span several routines or hold for
    every input, stated over the functions of HookModel. */
module HookProperties {
  import opened KeyCodes
  import opened HookModel

  // ---------------------------------------------------------------------
  // Modifier tracking (UpdateModifierState, UpdateKeyState)

  /** The logical mask after a modifier event, in closed form. */
  lemma ModifierUpdateLogicalMask(t: Tracker, e: KeyboardEvent, sc: SC, suppressed: bool, slot: Slot)
    requires TrackerOk(t) && ModifierSlot(e.vk, sc) == Some(slot)
    ensures UpdateModifierState(t, e, sc, suppressed).modLogical
              == if suppressed then t.modLogical else SetModifierBit(t.modLogical, slot.bit, !e.keyUp)
  {
  }

  /** Only the event's own bit of the logical mask changes, and only when
      the event is not suppressed; the bit then follows the event. */
  lemma {:induction false} ModifierUpdateLogicalBit(t: Tracker, e: KeyboardEvent, sc: SC, suppressed: bool, slot: Slot)
    requires TrackerOk(t) && ModifierSlot(e.vk, sc) == Some(slot)
    ensures UpdateModifierState(t, e, sc, suppressed).modLogical & !slot.bit == t.modLogical & !slot.bit
    ensures suppressed ==> UpdateModifierState(t, e, sc, suppressed).modLogical == t.modLogical
    ensures !suppressed ==>
              UpdateModifierState(t, e, sc, suppressed).modLogical & slot.bit == (if e.keyUp then 0 else slot.bit)
  {
    ModifierUpdateLogicalMask(t, e, sc, suppressed, slot);
  }

  /** Whether an event counts as physical does not depend on the logical
      modifier mask. */
  lemma {:induction false} PhysicalIgnoresLogicalMask(t: Tracker, e: KeyboardEvent, m: bv8)
    ensures EventIsPhysical(t.(modLogical := m), e).0 == EventIsPhysical(t, e).0
  {
    var t1 := t.(modLogical := m);
    assert t1.notPhysLatch == t.notPhysLatch && t1.padState == t.padState && t1.prior == t.prior;
  }

  /** The physical mask and key states after a modifier event, in closed
      form: they change only for an event that is physical. */
  lemma {:induction false} ModifierUpdatePhysicalState(t: Tracker, e: KeyboardEvent, sc: SC, suppressed: bool, slot: Slot)
    requires TrackerOk(t) && ModifierSlot(e.vk, sc) == Some(slot)
    ensures var r := UpdateModifierState(t, e, sc, suppressed);
            r.modPhysical == (if EventIsPhysical(t, e).0 then SetModifierBit(t.modPhysical, slot.bit, !e.keyUp)
                              else t.modPhysical)
            && r.physKey == (if EventIsPhysical(t, e).0 then PressPhysical(t.physKey, slot, !e.keyUp) else t.physKey)
  {
    var t1 := if suppressed then t else t.(modLogical := SetModifierBit(t.modLogical, slot.bit, !e.keyUp));
    PhysicalIgnoresLogicalMask(t, e, t1.modLogical);
    assert t1 == t.(modLogical := t1.modLogical);
  }

  /** An injected or driver-made modifier event leaves the physical state
      alone. */
  lemma {:induction false} ModifierUpdateNotPhysical(t: Tracker, e: KeyboardEvent, sc: SC, suppressed: bool, slot: Slot)
    requires TrackerOk(t) && ModifierSlot(e.vk, sc) == Some(slot) && !EventIsPhysical(t, e).0
    ensures UpdateModifierState(t, e, sc, suppressed).modPhysical == t.modPhysical
    ensures UpdateModifierState(t, e, sc, suppressed).physKey == t.physKey
  {
    ModifierUpdatePhysicalState(t, e, sc, suppressed, slot);
  }

  /** A physical modifier event sets or clears its own bit of the physical
      mask ... */
  lemma {:induction false} ModifierUpdateOwnPhysicalBit(t: Tracker, e: KeyboardEvent, sc: SC, suppressed: bool, slot: Slot)
    requires TrackerOk(t) && ModifierSlot(e.vk, sc) == Some(slot) && EventIsPhysical(t, e).0
    ensures UpdateModifierState(t, e, sc, suppressed).modPhysical & slot.bit == (if e.keyUp then 0 else slot.bit)
  {
    ModifierUpdatePhysicalState(t, e, sc, suppressed, slot);
    var m := UpdateModifierState(t, e, sc, suppressed).modPhysical;
    if e.keyUp {
      assert m == SetModifierBit(t.modPhysical, slot.bit, false);
    } else {
      assert m == SetModifierBit(t.modPhysical, slot.bit, true);
    }
  }

  /** ... and no other bit. */
  lemma {:induction false} ModifierUpdateOtherPhysicalBits(t: Tracker, e: KeyboardEvent, sc: SC, suppressed: bool, slot: Slot)
    requires TrackerOk(t) && ModifierSlot(e.vk, sc) == Some(slot) && EventIsPhysical(t, e).0
    ensures UpdateModifierState(t, e, sc, suppressed).modPhysical & !slot.bit == t.modPhysical & !slot.bit
  {
    ModifierUpdatePhysicalState(t, e, sc, suppressed, slot);
  }

  /** The key itself follows a physical event, the neutral key (Shift,
      Control or Alt) is down iff either side is, and no other key
      changes. */
  lemma {:induction false} ModifierUpdatePhysicalKeys(t: Tracker, e: KeyboardEvent, sc: SC, suppressed: bool, slot: Slot)
    requires TrackerOk(t) && ModifierSlot(e.vk, sc) == Some(slot) && EventIsPhysical(t, e).0
    ensures var p := UpdateModifierState(t, e, sc, suppressed).physKey;
            p[slot.key] == !e.keyUp
            && (slot.neutral.Some? ==> p[slot.neutral.value] == (p[slot.key] || p[slot.other]))
            && forall i :: 0 <= i < 256 && i != slot.key && Some(i) != slot.neutral ==> p[i] == t.physKey[i]
  {
    ModifierUpdatePhysicalState(t, e, sc, suppressed, slot);
  }

  /** The shift rollback and the modifier update never set the "next
      physical shift is not physical" latch; only cases #4 and #5 of the
      workaround do. */
  lemma {:induction false} LatchSetOnlyByLazyShift(cfg: Config, t: Tracker, e: KeyboardEvent, sc: SC, suppressed: bool)
    requires ValidConfig(cfg) && TrackerOk(t)
    ensures UpdateKeyState(cfg, t, e, sc, suppressed).notPhysLatch ==> t.notPhysLatch || ShiftWasLazy(t, e, sc)
  {
    var t1 := RollBackShift(t, e, sc);
    var t2 := t1.(snap := ShiftSnapshot(t1.modPhysical, t1.physKey[VK_SHIFT], t1.physKey[VK_LSHIFT]));
    var t3 := if cfg.vkKeys[e.vk].asModifiersLR != 0 then UpdateModifierState(t2, e, sc, suppressed) else t2;
    ModifierUpdateKeepsLatchOff(t2, e, sc, suppressed);
    assert t3.notPhysLatch ==> t2.notPhysLatch;
  }

  lemma {:induction false} ModifierUpdateKeepsLatchOff(t: Tracker, e: KeyboardEvent, sc: SC, suppressed: bool)
    requires TrackerOk(t)
    ensures UpdateModifierState(t, e, sc, suppressed).notPhysLatch ==> t.notPhysLatch
  {
    match ModifierSlot(e.vk, sc)
    case None =>
    case Some(slot) =>
      var t1 := if suppressed then t else t.(modLogical := SetModifierBit(t.modLogical, slot.bit, !e.keyUp));
      assert EventIsPhysical(t1, e).1.notPhysLatch ==> t1.notPhysLatch;
  }

  /** Line 597: the event is remembered as physical unless it was injected
      or it is an LShift/Shift press that the latch marks as driver-made.
      For a key configured as a modifier the latch was already consumed by
      the check inside UpdateModifierState, so the second check at line 597
      finds it clear and such a press is remembered as physical. */
  lemma {:induction false} UpdateKeyStateRecordsPhysical(cfg: Config, t: Tracker, e: KeyboardEvent, sc: SC, suppressed: bool)
    requires ValidConfig(cfg) && TrackerOk(t)
    ensures UpdateKeyState(cfg, t, e, sc, suppressed).prior.physical <==>
              !e.injected
              && !(IsShiftDown(e) && t.notPhysLatch && !PadDown(t.padState) && cfg.vkKeys[e.vk].asModifiersLR == 0)
  {
    var t3 := ModifierStage(cfg, t, e, sc, suppressed);
    if IsShiftDown(e) && !e.injected && !PadDown(t.padState) {
      var t1 := RollBackShift(t, e, sc);
      var t2 := t1.(snap := ShiftSnapshot(t1.modPhysical, t1.physKey[VK_SHIFT], t1.physKey[VK_LSHIFT]));
      assert !ShiftWasLazy(t, e, sc);
      assert t2.notPhysLatch == t.notPhysLatch;
      if cfg.vkKeys[e.vk].asModifiersLR != 0 {
        assert ModifierSlot(e.vk, sc).Some?;
        assert !t3.notPhysLatch;
      } else {
        assert t3 == t2;
      }
    }
  }

  /** Line 651: a suppressed key still updates the tracking, as a
      suppressed event: the logical mask does not change. */
  lemma SuppressedKeyKeepsLogicalMask(cfg: Config, s: State, e: KeyboardEvent, sc: SC, cur: nat)
    requires Ready(cfg, s, cur)
    ensures SuppressThisKey(cfg, s, e, sc, cur).tracker == UpdateKeyState(cfg, s.tracker, e, sc, true)
    ensures SuppressThisKey(cfg, s, e, sc, cur).tracker.modLogical == s.tracker.modLogical
  {
  }

  /** The snapshot UpdateKeyState leaves for the next event is the physical
      shift state after this event's rollback. */
  lemma {:induction false} SnapshotFollowsRollback(cfg: Config, t: Tracker, e: KeyboardEvent, sc: SC, suppressed: bool)
    requires ValidConfig(cfg) && TrackerOk(t)
    ensures var b := RollBackShift(t, e, sc);
            UpdateKeyState(cfg, t, e, sc, suppressed).snap
              == ShiftSnapshot(b.modPhysical, b.physKey[VK_SHIFT], b.physKey[VK_LSHIFT])
  {
    var t1 := RollBackShift(t, e, sc);
    var t2 := t1.(snap := ShiftSnapshot(t1.modPhysical, t1.physKey[VK_SHIFT], t1.physKey[VK_LSHIFT]));
    var t3 := if cfg.vkKeys[e.vk].asModifiersLR != 0 then UpdateModifierState(t2, e, sc, suppressed) else t2;
    assert t3.snap == t2.snap;
  }

  /** Win-L resets the tracking only when exactly one Win key is logically
      down.  The source's third alternative, (MOD_RWIN | MOD_RWIN), repeats
      the second, so both Win keys held together do not qualify. */
  lemma WinLockResetNeedsOneWinKey()
    ensures forall m: bv8 :: WinLockReset(m) <==> m == MOD_LWIN || m == MOD_RWIN
    ensures !WinLockReset(MOD_LWIN | MOD_RWIN)
  {
  }

  // ---------------------------------------------------------------------
  // The key history ring

  /** LowLevelKeybdProc as a total function of the state (a state it is not
      defined for is left alone). */
  ghost function Hook(cfg: Config): (State, KeyboardEvent) -> State
  {
    (s: State, e: KeyboardEvent) => if ValidConfig(cfg) && WellFormed(s) then Step(cfg, s, e).st else s
  }

  /** The hook called once per event, in order. */
  ghost function Run(f: (State, KeyboardEvent) -> State, s: State, es: seq<KeyboardEvent>): State
    decreases |es|
  {
    if |es| == 0 then s else Run(f, f(s, es[0]), es[1..])
  }

  function Actions(es: seq<KeyboardEvent>): (n: nat)
    ensures n <= |es|
  {
    if |es| == 0 then 0 else (if es[0].hcAction then 1 else 0) + Actions(es[1..])
  }

  ghost predicate AdvancesCursor(f: (State, KeyboardEvent) -> State, n: nat)
  {
    forall s: State, e: KeyboardEvent :: WellFormed(s) && |s.history.items| == n ==>
      WellFormed(f(s, e)) && |f(s, e).history.items| == n
      && f(s, e).history.next == (s.history.next + (if e.hcAction then 1 else 0)) % n
  }

  lemma {:induction false} MulAtLeast(n: int, d: int)
    requires n > 0 && d >= 1
    ensures n * d >= n
    decreases d
  {
    if d > 1 {
      MulAtLeast(n, d - 1);
      assert n * d == n * (d - 1) + n;
    }
  }

  lemma {:induction false} ModUnique(x: int, q: int, r: int, n: int)
    requires n > 0 && 0 <= r < n && x == n * q + r
    ensures x % n == r
  {
    var q2, r2 := x / n, x % n;
    assert n * (q2 - q) == r - r2;
    if q2 > q { MulAtLeast(n, q2 - q); }
    else if q2 < q { MulAtLeast(n, q - q2); }
  }

  lemma {:induction false} ModAdd(a: nat, b: nat, n: nat)
    requires 0 < n
    ensures (a % n + b) % n == (a + b) % n
  {
    var x := a % n + b;
    ModUnique(a + b, a / n + x / n, x % n, n);
    assert a + b == n * (a / n) + n * (x / n) + x % n;
  }

  lemma {:induction false} RunAdvancesCursorBy(f: (State, KeyboardEvent) -> State, n: nat, s: State, es: seq<KeyboardEvent>)
    requires AdvancesCursor(f, n) && WellFormed(s) && |s.history.items| == n
    ensures WellFormed(Run(f, s, es)) && |Run(f, s, es).history.items| == n
    ensures Run(f, s, es).history.next == (s.history.next + Actions(es)) % n
    decreases |es|
  {
    if |es| == 0 {
      ModUnique(s.history.next, 0, s.history.next, n);
    } else {
      var s1 := f(s, es[0]);
      var a0 := if es[0].hcAction then 1 else 0;
      assert WellFormed(s1) && |s1.history.items| == n && s1.history.next == (s.history.next + a0) % n;
      RunAdvancesCursorBy(f, n, s1, es[1..]);
      assert Run(f, s, es) == Run(f, s1, es[1..]) && Actions(es) == a0 + Actions(es[1..]);
      ModAdd(s.history.next + a0, Actions(es[1..]), n);
    }
  }

  lemma {:induction false} HookAdvancesCursor(cfg: Config, n: nat)
    requires ValidConfig(cfg)
    ensures AdvancesCursor(Hook(cfg), n)
  {
    forall s: State, e: KeyboardEvent | WellFormed(s) && |s.history.items| == n
      ensures WellFormed(Hook(cfg)(s, e)) && |Hook(cfg)(s, e).history.items| == n
      ensures Hook(cfg)(s, e).history.next == (s.history.next + (if e.hcAction then 1 else 0)) % n
    {
      StepAdvancesCursor(cfg, s, e);
      assert Hook(cfg)(s, e) == Step(cfg, s, e).st;
    }
  }

  /** One event moves the ring's cursor by one exactly when it is logged. */
  lemma {:induction false} StepAdvancesCursor(cfg: Config, s: State, e: KeyboardEvent)
    requires ValidConfig(cfg) && WellFormed(s)
    ensures Step(cfg, s, e).st.history.next == (s.history.next + (if e.hcAction then 1 else 0)) % |s.history.items|
  {
    var r := Step(cfg, s, e);
    CursorMove(s.history.next, |s.history.items|, r.st.history.next, e.hcAction);
  }

  /** The cursor arithmetic: a logged event moves it on by one, modulo the
      ring's size, and any other event leaves it in place. */
  lemma {:induction false} CursorMove(next: nat, n: nat, moved: nat, logged: bool)
    requires next < n && (logged ==> moved == (next + 1) % n) && (!logged ==> moved == next)
    ensures moved == (next + (if logged then 1 else 0)) % n
  {
    if !logged {
      ModUnique(next, 0, next, n);
    }
  }

  lemma {:induction false} RunAdvancesCursor(cfg: Config, s: State, es: seq<KeyboardEvent>)
    requires ValidConfig(cfg) && WellFormed(s)
    ensures WellFormed(Run(Hook(cfg), s, es))
    ensures Run(Hook(cfg), s, es).history.next == (s.history.next + Actions(es)) % |s.history.items|
  {
    HookAdvancesCursor(cfg, |s.history.items|);
    RunAdvancesCursorBy(Hook(cfg), |s.history.items|, s, es);
  }

  // ---------------------------------------------------------------------
  // Early exits of LowLevelKeybdProc (lines 989-1102)

  /** Lines 919-1102: any other event is first logged and tracked, and the
      decision is taken on the state that results. */
  lemma StepDispatchesAfterBookkeeping(cfg: Config, s: State, e: KeyboardEvent)
    requires ValidConfig(cfg) && WellFormed(s) && e.hcAction && !e.ignore && !DisguiseUpPending(s.disguise, e)
    ensures var sc := NormalizeScanCode(e.vk, e.scanCode, e.extended, cfg.vkToSc);
            Step(cfg, s, e) == Dispatch(cfg, Bookkeeping(cfg, s, e, sc), e, sc, s.history.next)
  {
  }

  /** An event the program sent itself is let through; it is logged as
      'i' and changes no key record, the prefix pointer or the outputs. */
  lemma IgnoredEventPassesThrough(cfg: Config, s: State, e: KeyboardEvent)
    requires ValidConfig(cfg) && WellFormed(s) && e.hcAction && e.ignore
    ensures Step(cfg, s, e).disp == Allow
    ensures KeysUnchanged(s, Step(cfg, s, e).st)
    ensures Step(cfg, s, e).st.sent == s.sent && Step(cfg, s, e).st.posted == s.posted
    ensures Step(cfg, s, e).st.history.items[s.history.next].eventType == 'i'
  {
  }

  /** The release of a Win/Alt key whose disguise is pending is swallowed
      and sent again inside a Shift press; the pending flag is consumed. */
  lemma DisguisedReleaseReplaced(cfg: Config, s: State, e: KeyboardEvent)
    requires ValidConfig(cfg) && WellFormed(s) && e.hcAction && !e.ignore && DisguiseUpPending(s.disguise, e)
    ensures Step(cfg, s, e).disp == Suppress
    ensures Step(cfg, s, e).st.sent
              == s.sent + DisguisedRelease(e, NormalizeScanCode(e.vk, e.scanCode, e.extended, cfg.vkToSc))
    ensures KeysUnchanged(s, Step(cfg, s, e).st)
    ensures !DisguiseUpPending(Step(cfg, s, e).st.disguise, e)
  {
  }

  /** A repeated press of the active prefix leaves at once, before any key
      record changes: a modifier passes (unless its toggle is pinned), any
      other key is suppressed. */
  lemma PrefixRepeatExitsEarly(cfg: Config, s: State, e: KeyboardEvent, sc: SC, cur: nat, k: KeyRef)
    requires Ready(cfg, s, cur) && k == ThisKey(cfg, e, sc) && s.prefixKey == Some(k) && !e.keyUp
    ensures KeysUnchanged(s, Dispatch(cfg, s, e, sc, cur).st)
    ensures KeyCfg(cfg, k).asModifiersLR == 0 ==> Dispatch(cfg, s, e, sc, cur).disp == Suppress
    ensures KeyCfg(cfg, k).asModifiersLR != 0 ==>
              Dispatch(cfg, s, e, sc, cur).disp
                == if !e.ignore && TogglePinned(cfg.vkKeys[e.vk]) then Suppress else Allow
  {
  }

  /** A key that is neither a prefix nor a suffix passes (unless its toggle
      is pinned).  It changes no key record except that a press of a
      non-modifier marks the active prefix as used. */
  lemma PlainKeyPasses(cfg: Config, s: State, e: KeyboardEvent, sc: SC, cur: nat, k: KeyRef)
    requires Ready(cfg, s, cur) && k == ThisKey(cfg, e, sc) && !(s.prefixKey == Some(k) && !e.keyUp)
    requires !KeyCfg(cfg, k).usedAsPrefix && !KeyCfg(cfg, k).usedAsSuffix
    ensures Dispatch(cfg, s, e, sc, cur).disp == if !e.ignore && TogglePinned(cfg.vkKeys[e.vk]) then Suppress else Allow
    ensures Dispatch(cfg, s, e, sc, cur).st.prefixKey == s.prefixKey
    ensures forall k2 :: Some(k2) != s.prefixKey ==> Rec(Dispatch(cfg, s, e, sc, cur).st, k2) == Rec(s, k2)
    ensures s.prefixKey.Some? && !e.keyUp && KeyCfg(cfg, k).asModifiersLR == 0 ==>
              Rec(Dispatch(cfg, s, e, sc, cur).st, s.prefixKey.value).wasJustUsed == AsPrefix
  {
  }

  /** Case 2: the release of a suffix that is not the active prefix is
      suppressed iff its press performed an action (or its toggle is
      pinned); the record's action flag is cleared and it is marked up. */
  lemma SuffixReleaseSuppressedIffActed(cfg: Config, s: State, e: KeyboardEvent, sc: SC, cur: nat, k: KeyRef)
    requires Ready(cfg, s, cur) && k == ThisKey(cfg, e, sc) && e.keyUp
    requires KeyCfg(cfg, k).usedAsSuffix && s.prefixKey != Some(k)
    ensures Dispatch(cfg, s, e, sc, cur).disp == Suppress <==>
              Rec(s, k).downPerformedAction || (!e.ignore && TogglePinned(cfg.vkKeys[e.vk]))
    ensures Dispatch(cfg, s, e, sc, cur).disp != AllowDisguised
    ensures !Rec(Dispatch(cfg, s, e, sc, cur).st, k).downPerformedAction
    ensures !Rec(Dispatch(cfg, s, e, sc, cur).st, k).isDown
    ensures Dispatch(cfg, s, e, sc, cur).st.prefixKey == s.prefixKey
  {
  }

  // ---------------------------------------------------------------------
  // The prefix key's life (cases 1 and 3)

  /** Case 1: a prefix pressed while no prefix is active (or that is not a
      suffix) becomes the active prefix, unused so far; it keeps its native
      function only if it is a modifier or a neutral lock key. */
  lemma PrefixPressBecomesActive(cfg: Config, s: State, e: KeyboardEvent, sc: SC, cur: nat, k: KeyRef)
    requires Ready(cfg, s, cur) && k == ThisKey(cfg, e, sc) && !e.keyUp && s.prefixKey != Some(k)
    requires KeyCfg(cfg, k).usedAsPrefix && (s.prefixKey.None? || !KeyCfg(cfg, k).usedAsSuffix)
    ensures Dispatch(cfg, s, e, sc, cur).st.prefixKey == Some(k)
    ensures Rec(Dispatch(cfg, s, e, sc, cur).st, k).wasJustUsed == NotUsed
    ensures Rec(Dispatch(cfg, s, e, sc, cur).st, k).isDown
    ensures !KeepsNativeFunction(KeyCfg(cfg, k)) ==> Dispatch(cfg, s, e, sc, cur).disp == Suppress
    ensures KeepsNativeFunction(KeyCfg(cfg, k)) ==>
              Dispatch(cfg, s, e, sc, cur).disp == if !e.ignore && TogglePinned(cfg.vkKeys[e.vk]) then Suppress else Allow
  {
  }

  /** Case 3 for a neutral lock key that served as the prefix of a hotkey:
      the prefix is released, the key is pressed and released again so
      that its toggle state is unchanged, and the event is suppressed. */
  lemma NeutralLockPrefixRestoresToggle(cfg: Config, s: State, e: KeyboardEvent, sc: SC, cur: nat, k: KeyRef,
                                        wasDown: bool, acted: bool)
    requires Ready(cfg, s, cur) && e.keyUp && KeyCfg(cfg, k).usedAsPrefix
    requires !(KeyCfg(cfg, k).usedAsSuffix && s.prefixKey != Some(k))
    requires KeyCfg(cfg, k).forceToggle == Some(Neutral) && Rec(s, k).wasJustUsed == AsPrefixForHotkey
    ensures PrefixSuffix(cfg, s, e, sc, cur, k, wasDown, acted).disp == Suppress
    ensures PrefixSuffix(cfg, s, e, sc, cur, k, wasDown, acted).st.sent == ReleasePrefix(s, k).sent + ToggleRestore(e, sc)
    ensures PrefixSuffix(cfg, s, e, sc, cur, k, wasDown, acted).st.prefixKey
              == if s.prefixKey == Some(k) then None else s.prefixKey
  {
  }

  /** Case 1 is skipped for a suffix pressed while another prefix is held:
      that prefix stays in effect, unless an override of this suffix names
      a held prefix, which then takes over marked as having fired. */
  lemma {:induction false} HeldPrefixNotReplacedBySuffix(cfg: Config, s: State, e: KeyboardEvent, sc: SC, cur: nat, k: KeyRef)
    requires Ready(cfg, s, cur) && k == ThisKey(cfg, e, sc) && !e.keyUp
    requires s.prefixKey.Some? && s.prefixKey != Some(k) && KeyCfg(cfg, k).usedAsSuffix
    ensures var r := Dispatch(cfg, s, e, sc, cur);
            r.st.prefixKey == s.prefixKey
            || (r.st.prefixKey.Some? && Rec(r.st, r.st.prefixKey.value).wasJustUsed == AsPrefixForHotkey)
  {
    var s1 := if KeyCfg(cfg, k).asModifiersLR == 0 then SetJustUsed(s, s.prefixKey.value, AsPrefix) else s;
    var s2 := NoteKeyDown(s1, k, false);
    assert Dispatch(cfg, s, e, sc, cur) == SuffixAction(cfg, s2, e, sc, cur, k);
    SuffixPressKeepsPrefix(cfg, s2, e, sc, cur, k);
  }

  /** A suffix pressed while a prefix is held keeps that prefix, or hands
      over to a held prefix named by an override, marked as having fired. */
  lemma {:induction false} SuffixPressKeepsPrefix(cfg: Config, s: State, e: KeyboardEvent, sc: SC, cur: nat, k: KeyRef)
    requires Ready(cfg, s, cur) && !e.keyUp && s.prefixKey.Some?
    ensures var r := SuffixAction(cfg, s, e, sc, cur, k);
            r.st.prefixKey == s.prefixKey
            || (r.st.prefixKey.Some? && Rec(r.st, r.st.prefixKey.value).wasJustUsed == AsPrefixForHotkey)
  {
    var l := OverrideLookup(cfg, s, k);
    if l.choice.id == HOTKEY_ID_ALT_TAB || l.choice.id == HOTKEY_ID_ALT_TAB_SHIFT {
      AltTabFromPrefixHoldsAlt(cfg, l.st, e, sc, cur, k, l.choice.id);
      AltTabFromPrefixKeepsUseMark(cfg, l.st, e, sc, cur, k, l.choice.id);
    } else {
      var kc := KeyCfg(cfg, k);
      var c1 := if l.choice.id == HOTKEY_ID_INVALID
                then TableLookup(cfg, l.st.tracker.modLogical, l.st.altTabMenuIsVisible, e, sc, kc) else l.choice;
      if c1.id != HOTKEY_ID_INVALID {
        FirePressKeepsPrefix(cfg, l.st, e, sc, cur, k, c1);
      }
    }
  }

  /** A hotkey fired by a press leaves the prefix pointer where it was; the
      prefix's use mark either stays or becomes "fired a hotkey". */
  lemma {:induction false} FirePressKeepsPrefix(cfg: Config, s: State, e: KeyboardEvent, sc: SC, cur: nat, k: KeyRef, c: HotkeyChoice)
    requires Ready(cfg, s, cur) && !e.keyUp
    ensures Fire(cfg, s, e, sc, cur, k, c).st.prefixKey == s.prefixKey
    ensures s.prefixKey.Some? ==>
              Rec(Fire(cfg, s, e, sc, cur, k, c).st, s.prefixKey.value).wasJustUsed
                in {Rec(s, s.prefixKey.value).wasJustUsed, AsPrefixForHotkey}
  {
    if !HotkeySwitch(s.tracker.modLogical, s.altTabMenuIsVisible, e, KeyCfg(cfg, k).asModifiersLR != 0, c.id).allowNow {
      HotkeyPressMarksKeys(cfg, s, e, sc, cur, k, c);
    }
  }

  /** An Alt-Tab hotkey fired from a prefix leaves that prefix holding Alt,
      so that its release sends Alt up; the suffix records its action and
      the prefix pointer is kept. */
  lemma {:induction false} AltTabFromPrefixHoldsAlt(cfg: Config, s: State, e: KeyboardEvent, sc: SC, cur: nat, k: KeyRef, id: bv16)
    requires Ready(cfg, s, cur) && s.prefixKey.Some?
    ensures var r := AltTabFromPrefix(cfg, s, e, sc, cur, k, id);
            r.st.prefixKey == s.prefixKey && Rec(r.st, s.prefixKey.value).itPutAltDown
            && Rec(r.st, k).downPerformedAction
    ensures var r := AltTabFromPrefix(cfg, s, e, sc, cur, k, id);
            ReleasePrefix(r.st, s.prefixKey.value).sent[|r.st.sent|] == Up(VK_MENU)
  {
    AltTabFromPrefixMarksKeys(cfg, s, e, sc, cur, k, id);
    var r := AltTabFromPrefix(cfg, s, e, sc, cur, k, id);
    var rel := ReleasePrefix(r.st, s.prefixKey.value);
    assert rel.sent == r.st.sent + [Up(VK_MENU)] + (if Rec(r.st, s.prefixKey.value).itPutShiftDown then [Up(VK_SHIFT)] else []);
  }

  /** The key records of AltTabFromPrefixHoldsAlt. */
  lemma {:induction false} AltTabFromPrefixMarksKeys(cfg: Config, s: State, e: KeyboardEvent, sc: SC, cur: nat, k: KeyRef, id: bv16)
    requires Ready(cfg, s, cur) && s.prefixKey.Some?
    ensures var r := AltTabFromPrefix(cfg, s, e, sc, cur, k, id);
            r.st.prefixKey == s.prefixKey && Rec(r.st, s.prefixKey.value).itPutAltDown
            && Rec(r.st, k).downPerformedAction
  {
    var s2 := AltTabPrefixRecords(s, e, k, id);
    var keys := AltTabPrefixKeys(s.tracker.modLogical, e, sc, id == HOTKEY_ID_ALT_TAB_SHIFT);
    var s3 := SetEventType(Send(s2, keys), cur, 'h');
    assert KeysUnchanged(s2, s3);
    assert KeysUnchanged(s2, AltTabFromPrefix(cfg, s, e, sc, cur, k, id).st);
  }

  /** Shift-Alt-Tab from a key other than a numpad digit leaves the prefix
      holding Shift as well. */
  lemma {:induction false} AltTabFromPrefixHoldsShift(cfg: Config, s: State, e: KeyboardEvent, sc: SC, cur: nat, k: KeyRef)
    requires Ready(cfg, s, cur) && s.prefixKey.Some? && !IsNumpadDigitOrDecimal(e.vk)
    ensures Rec(AltTabFromPrefix(cfg, s, e, sc, cur, k, HOTKEY_ID_ALT_TAB_SHIFT).st, s.prefixKey.value).itPutShiftDown
  {
    var s2 := AltTabPrefixRecords(s, e, k, HOTKEY_ID_ALT_TAB_SHIFT);
    var keys := AltTabPrefixKeys(s.tracker.modLogical, e, sc, true);
    var s3 := SetEventType(Send(s2, keys), cur, 'h');
    assert KeysUnchanged(s2, s3);
    assert KeysUnchanged(s2, AltTabFromPrefix(cfg, s, e, sc, cur, k, HOTKEY_ID_ALT_TAB_SHIFT).st);
  }

  /** The prefix's use mark does not change. */
  lemma {:induction false} AltTabFromPrefixKeepsUseMark(cfg: Config, s: State, e: KeyboardEvent, sc: SC, cur: nat, k: KeyRef, id: bv16)
    requires Ready(cfg, s, cur) && s.prefixKey.Some?
    ensures Rec(AltTabFromPrefix(cfg, s, e, sc, cur, k, id).st, s.prefixKey.value).wasJustUsed
              == Rec(s, s.prefixKey.value).wasJustUsed
  {
    var s2 := AltTabPrefixRecords(s, e, k, id);
    var keys := AltTabPrefixKeys(s.tracker.modLogical, e, sc, id == HOTKEY_ID_ALT_TAB_SHIFT);
    var s3 := SetEventType(Send(s2, keys), cur, 'h');
    assert KeysUnchanged(s2, s3);
    assert KeysUnchanged(s2, AltTabFromPrefix(cfg, s, e, sc, cur, k, id).st);
  }

  /** Case 3 in general: the prefix pointer is dropped if it is this key,
      the Alt/Shift this prefix held for Alt-Tab are released first and its
      flags cleared, whatever the rest of the release does. */
  lemma {:induction false} PrefixReleaseDropsPointer(cfg: Config, s: State, e: KeyboardEvent, sc: SC, cur: nat, k: KeyRef,
                                                    wasDown: bool, acted: bool)
    requires Ready(cfg, s, cur) && e.keyUp && KeyCfg(cfg, k).usedAsPrefix
    requires !(KeyCfg(cfg, k).usedAsSuffix && s.prefixKey != Some(k))
    ensures PrefixSuffix(cfg, s, e, sc, cur, k, wasDown, acted).st.prefixKey
              == if s.prefixKey == Some(k) then None else s.prefixKey
    ensures ReleasePrefix(s, k).sent <= PrefixSuffix(cfg, s, e, sc, cur, k, wasDown, acted).st.sent
    ensures !Rec(PrefixSuffix(cfg, s, e, sc, cur, k, wasDown, acted).st, k).itPutAltDown
    ensures !Rec(PrefixSuffix(cfg, s, e, sc, cur, k, wasDown, acted).st, k).itPutShiftDown
  {
    assert PrefixSuffix(cfg, s, e, sc, cur, k, wasDown, acted) == PrefixUp(cfg, s, e, sc, cur, k, wasDown);
  }

  /** Case 3, lines 1248-1255: the release of a used prefix that is not a
      neutral lock key is suppressed when the key is not a modifier. */
  lemma UsedPrefixReleaseSuppressed(cfg: Config, s: State, e: KeyboardEvent, sc: SC, cur: nat, k: KeyRef, wasDown: bool)
    requires Ready(cfg, s, cur) && e.keyUp
    requires KeyCfg(cfg, k).forceToggle != Some(Neutral) && Rec(s, k).wasJustUsed != NotUsed
    requires KeyCfg(cfg, k).asModifiersLR == 0
    ensures PrefixUp(cfg, s, e, sc, cur, k, wasDown).disp == Suppress
  {
  }

  /** Case 3, lines 1251-1253: a used modifier prefix passes, and its Win or
      Alt release is disguised iff the prefix fired a hotkey. */
  lemma UsedModifierPrefixRelease(cfg: Config, s: State, e: KeyboardEvent, sc: SC, cur: nat, k: KeyRef, wasDown: bool)
    requires Ready(cfg, s, cur) && e.keyUp
    requires KeyCfg(cfg, k).forceToggle != Some(Neutral) && Rec(s, k).wasJustUsed != NotUsed
    requires KeyCfg(cfg, k).asModifiersLR != 0
    ensures PrefixUp(cfg, s, e, sc, cur, k, wasDown).disp == Suppress <==> !e.ignore && TogglePinned(cfg.vkKeys[e.vk])
    ensures PrefixUp(cfg, s, e, sc, cur, k, wasDown).disp == AllowDisguised <==>
              Rec(s, k).wasJustUsed == AsPrefixForHotkey && !(!e.ignore && TogglePinned(cfg.vkKeys[e.vk]))
              && cfg.vkKeys[e.vk].asModifiersLR != 0 && IsWinOrAlt(e.vk)
  {
  }

  /** Case 3, lines 1233-1234: a neutral lock key that served as a prefix
      without firing a hotkey passes undisguised. */
  lemma NeutralLockPrefixUsedPasses(cfg: Config, s: State, e: KeyboardEvent, sc: SC, cur: nat, k: KeyRef, wasDown: bool)
    requires Ready(cfg, s, cur) && e.keyUp
    requires KeyCfg(cfg, k).forceToggle == Some(Neutral) && Rec(s, k).wasJustUsed == AsPrefix
    ensures PrefixUp(cfg, s, e, sc, cur, k, wasDown).disp
              == if !e.ignore && TogglePinned(cfg.vkKeys[e.vk]) then Suppress else Allow
  {
  }

  /** Case 3, lines 1269-1274: an unused prefix that is not a suffix keeps
      its native function if it is a modifier or a neutral lock key and is
      suppressed otherwise. */
  lemma UnusedPrefixRelease(cfg: Config, s: State, e: KeyboardEvent, sc: SC, cur: nat, k: KeyRef, wasDown: bool)
    requires Ready(cfg, s, cur) && e.keyUp
    requires Rec(s, k).wasJustUsed == NotUsed && !KeyCfg(cfg, k).usedAsSuffix
    ensures PrefixUp(cfg, s, e, sc, cur, k, wasDown).disp == Suppress <==>
              !KeepsNativeFunction(KeyCfg(cfg, k)) || (!e.ignore && TogglePinned(cfg.vkKeys[e.vk]))
    ensures PrefixUp(cfg, s, e, sc, cur, k, wasDown).disp != AllowDisguised
  {
  }

  /** Case 3, lines 1281-1289: an unused prefix that is also a suffix and
      was not down before this release passes. */
  lemma UnusedSuffixPrefixNotDownPasses(cfg: Config, s: State, e: KeyboardEvent, sc: SC, cur: nat, k: KeyRef)
    requires Ready(cfg, s, cur) && e.keyUp
    requires Rec(s, k).wasJustUsed == NotUsed && KeyCfg(cfg, k).usedAsSuffix
    ensures PrefixUp(cfg, s, e, sc, cur, k, false).disp
              == if !e.ignore && TogglePinned(cfg.vkKeys[e.vk]) then Suppress else Allow
  {
  }

  /** Lines 1458-1487: with no hotkey found, a release keeps its native
      function only for a modifier or a neutral lock key. */
  lemma NoHotkeyRelease(cfg: Config, s: State, e: KeyboardEvent, sc: SC, cur: nat, k: KeyRef, c: HotkeyChoice)
    requires Ready(cfg, s, cur) && e.keyUp && c.id == HOTKEY_ID_INVALID
    requires TableLookup(cfg, s.tracker.modLogical, s.altTabMenuIsVisible, e, sc, KeyCfg(cfg, k)).id == HOTKEY_ID_INVALID
    ensures Resolve(cfg, s, e, sc, cur, k, c).disp == Suppress <==>
              !KeepsNativeFunction(KeyCfg(cfg, k)) || (!e.ignore && TogglePinned(cfg.vkKeys[e.vk]))
    ensures Resolve(cfg, s, e, sc, cur, k, c).disp != AllowDisguised
  {
  }

  /** Line 1508: with no hotkey found, a press passes. */
  lemma NoHotkeyPressPasses(cfg: Config, s: State, e: KeyboardEvent, sc: SC, cur: nat, k: KeyRef, c: HotkeyChoice)
    requires Ready(cfg, s, cur) && !e.keyUp && c.id == HOTKEY_ID_INVALID
    requires TableLookup(cfg, s.tracker.modLogical, s.altTabMenuIsVisible, e, sc, KeyCfg(cfg, k)).id == HOTKEY_ID_INVALID
    ensures Resolve(cfg, s, e, sc, cur, k, c).disp == if !e.ignore && TogglePinned(cfg.vkKeys[e.vk]) then Suppress else Allow
  {
  }

  // ---------------------------------------------------------------------
  // Which hotkey a suffix completes (case 4)

  /** The first held prefix among the VK overrides decides, ahead of any
      SC override. */
  lemma VkOverrideComesFirst(cfg: Config, s: State, k: KeyRef, i: nat)
    requires ValidConfig(cfg) && WellFormed(s) && FirstDownVk(KeyCfg(cfg, k).modifierVK, s.vkKeys) == Some(i)
    requires SplitHotkeyId(KeyCfg(cfg, k).modifierVK[i].idWithFlags).id != HOTKEY_ID_INVALID
    ensures OverrideLookup(cfg, s, k).choice == SplitHotkeyId(KeyCfg(cfg, k).modifierVK[i].idWithFlags)
    ensures OverrideLookup(cfg, s, k).st.prefixKey == Some(VkKey(KeyCfg(cfg, k).modifierVK[i].vk))
  {
  }

  /** With no VK override held, the first held prefix among the SC
      overrides decides. */
  lemma ScOverrideComesSecond(cfg: Config, s: State, k: KeyRef, j: nat)
    requires ValidConfig(cfg) && WellFormed(s) && FirstDownVk(KeyCfg(cfg, k).modifierVK, s.vkKeys).None?
    requires FirstDownSc(KeyCfg(cfg, k).modifierSC, s.scKeys) == Some(j)
    ensures OverrideLookup(cfg, s, k).choice == SplitHotkeyId(KeyCfg(cfg, k).modifierSC[j].idWithFlags)
    ensures OverrideLookup(cfg, s, k).st.prefixKey == Some(ScKey(KeyCfg(cfg, k).modifierSC[j].sc))
  {
  }

  /** With no override prefix held nothing changes and no hotkey is found. */
  lemma NoOverrideHeld(cfg: Config, s: State, k: KeyRef)
    requires ValidConfig(cfg) && WellFormed(s) && FirstDownVk(KeyCfg(cfg, k).modifierVK, s.vkKeys).None?
    requires FirstDownSc(KeyCfg(cfg, k).modifierSC, s.scKeys).None?
    ensures OverrideLookup(cfg, s, k) == Lookup(s, HotkeyChoice(HOTKEY_ID_INVALID, false))
  {
  }

  /** Whether the key's own modifier bits are held makes no difference to
      the table lookup. */
  lemma {:induction false} TableLookupIgnoresOwnModifier(cfg: Config, m: bv8, visible: bool, e: KeyboardEvent, sc: SC, kc: KeyConfig)
    requires ValidConfig(cfg)
    ensures TableLookup(cfg, m | kc.asModifiersLR, visible, e, sc, kc) == TableLookup(cfg, m, visible, e, sc, kc)
  {
    OwnBitsCleared(m, kc.asModifiersLR);
    assert WithoutOwnBits(m | kc.asModifiersLR, kc.asModifiersLR) == WithoutOwnBits(m, kc.asModifiersLR);
  }

  lemma OwnBitsCleared(m: bv8, a: bv8)
    ensures (m | a) & !a == m & !a
  {
  }

  /** The lookup without the Alt bits is tried only while the Alt-Tab menu
      is shown and only after the plain lookup found nothing. */
  lemma AltRetryOnlyWhileMenuShown(cfg: Config, m: bv8, visible: bool, e: KeyboardEvent, sc: SC, kc: KeyConfig)
    requires ValidConfig(cfg)
    ensures var first := SplitHotkeyId(TableEntry(cfg, m & !kc.asModifiersLR, e.vk, sc));
            TableLookup(cfg, m, visible, e, sc, kc) != first ==>
              visible && first.id == HOTKEY_ID_INVALID
              && TableLookup(cfg, m, visible, e, sc, kc)
                   == SplitHotkeyId(TableEntry(cfg, (m & !kc.asModifiersLR) & !(MOD_LALT | MOD_RALT), e.vk, sc))
  {
  }

  // ---------------------------------------------------------------------
  // A hotkey fires (lines 1517-1834)

  /** Lines 1757-1776: after a hotkey, the release of a neutral lock key
      that is a prefix is suppressed, the key being pressed and released
      again so that its toggle state stays. */
  lemma FinishNeutralLockPrefixRelease(cfg: Config, s: State, e: KeyboardEvent, sc: SC, cur: nat, k: KeyRef, noSuppress: bool)
    requires Ready(cfg, s, cur) && e.keyUp
    requires KeyCfg(cfg, k).forceToggle == Some(Neutral) && KeyCfg(cfg, k).usedAsPrefix
    ensures Finish(cfg, s, e, sc, cur, k, noSuppress).disp == Suppress
    ensures Finish(cfg, s, e, sc, cur, k, noSuppress).st.sent == s.sent + ToggleRestore(e, sc)
  {
  }

  /** Lines 1779-1784: after a hotkey, a modifier's release passes with a
      Win or Alt release disguised. */
  lemma FinishModifierReleaseDisguised(cfg: Config, s: State, e: KeyboardEvent, sc: SC, cur: nat, k: KeyRef, noSuppress: bool)
    requires Ready(cfg, s, cur) && e.keyUp
    requires !(KeyCfg(cfg, k).forceToggle == Some(Neutral) && KeyCfg(cfg, k).usedAsPrefix)
    requires KeyCfg(cfg, k).asModifiersLR != 0
    ensures Finish(cfg, s, e, sc, cur, k, noSuppress).disp == Suppress <==> !e.ignore && TogglePinned(cfg.vkKeys[e.vk])
    ensures Finish(cfg, s, e, sc, cur, k, noSuppress).disp == AllowDisguised <==>
              !(!e.ignore && TogglePinned(cfg.vkKeys[e.vk])) && cfg.vkKeys[e.vk].asModifiersLR != 0 && IsWinOrAlt(e.vk)
    ensures Finish(cfg, s, e, sc, cur, k, noSuppress).disp == AllowDisguised ==>
              Finish(cfg, s, e, sc, cur, k, noSuppress).st.sent == s.sent + DisguisedRelease(e, sc)
  {
  }

  /** Lines 1787-1808 and 1834: after a hotkey, the release of any other
      key is suppressed, unless the hotkey is pass-through: then the key's
      press is sent first and the release passes. */
  lemma FinishOtherRelease(cfg: Config, s: State, e: KeyboardEvent, sc: SC, cur: nat, k: KeyRef, noSuppress: bool)
    requires Ready(cfg, s, cur) && e.keyUp
    requires !(KeyCfg(cfg, k).forceToggle == Some(Neutral) && KeyCfg(cfg, k).usedAsPrefix)
    requires KeyCfg(cfg, k).asModifiersLR == 0
    ensures Finish(cfg, s, e, sc, cur, k, noSuppress).disp
              == if noSuppress && !(!e.ignore && TogglePinned(cfg.vkKeys[e.vk])) then Allow else Suppress
    ensures Finish(cfg, s, e, sc, cur, k, noSuppress).st.sent
              == s.sent + (if noSuppress then [SentKey(KeyDown, e.vk, sc)] else [])
  {
  }

  /** Lines 1821-1834: after a hotkey, a press is suppressed; a
      pass-through hotkey sends the key pressed and released in its place. */
  lemma FinishPressSends(cfg: Config, s: State, e: KeyboardEvent, sc: SC, cur: nat, k: KeyRef, noSuppress: bool)
    requires Ready(cfg, s, cur) && !e.keyUp
    ensures Finish(cfg, s, e, sc, cur, k, noSuppress).st.sent
              == s.sent + (if noSuppress then [SentKey(KeyDownAndUp, e.vk, sc)] else [])
                        + (if e.vk == VK_NUMLOCK && !e.ignore then NumLockRestore else [])
  {
  }

  /** A hotkey fired by a press (and not let through by the Alt-Tab switch)
      suppresses the press, records that the key performed an action and
      marks the active prefix as having fired a hotkey; an ordinary hotkey id
      is posted exactly once, an Alt-Tab id never. */
  lemma HotkeyPressMarksKeys(cfg: Config, s: State, e: KeyboardEvent, sc: SC, cur: nat, k: KeyRef, c: HotkeyChoice)
    requires Ready(cfg, s, cur) && !e.keyUp
    requires !HotkeySwitch(s.tracker.modLogical, s.altTabMenuIsVisible, e, KeyCfg(cfg, k).asModifiersLR != 0, c.id).allowNow
    ensures Fire(cfg, s, e, sc, cur, k, c).disp == Suppress
    ensures Rec(Fire(cfg, s, e, sc, cur, k, c).st, k).downPerformedAction
    ensures Fire(cfg, s, e, sc, cur, k, c).st.prefixKey == s.prefixKey
    ensures s.prefixKey.Some? ==> Rec(Fire(cfg, s, e, sc, cur, k, c).st, s.prefixKey.value).wasJustUsed == AsPrefixForHotkey
    ensures Fire(cfg, s, e, sc, cur, k, c).st.history.items[cur].eventType == 'h'
    ensures Fire(cfg, s, e, sc, cur, k, c).st.posted == s.posted + (if IsAltTabId(c.id) then [] else [c.id])
  {
  }
}
