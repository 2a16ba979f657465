/** The keyboard hook of Source/hook_include.cpp as functions over values.
    Each source routine (and each case block of LowLevelKeybdProc) has one
    function here; the class in hook_state.dfy runs the same steps in place
    and is proved to agree with these functions. */
module HookModel {
  import opened KeyCodes

  // ---------------------------------------------------------------------
  // Configuration: set up outside the hook and only read by it.

  /** The value *pForceToggle points to for a lock key. */
  datatype ForceToggle = Neutral | AlwaysOn | AlwaysOff

  /** One ModifierVK / ModifierSC entry: "this suffix with that prefix held". */
  datatype VkOverride = VkOverride(vk: VK, idWithFlags: bv16)
  datatype ScOverride = ScOverride(sc: SC, idWithFlags: bv16)

  /** The static half of a key_type record of kvk[] or ksc[]. */
  datatype KeyConfig = KeyConfig(
    usedAsPrefix: bool,
    usedAsSuffix: bool,
    asModifiersLR: bv8,
    forceToggle: Option<ForceToggle>,   // None: pForceToggle is NULL
    scTakesPrecedence: bool,
    modifierVK: seq<VkOverride>,
    modifierSC: seq<ScOverride>)

  /** Results of the g_os queries. */
  datatype OsVersion = OsVersion(isWinXPorLater: bool, isWin2000: bool, isWinNT4: bool)

  /** kvk[] and ksc[] (static half), the Kvkm/Kscm hotkey tables,
      g_vk_to_sc and the OS version. */
  datatype Config = Config(
    vkKeys: seq<KeyConfig>,
    scKeys: seq<KeyConfig>,
    kvkm: (bv8, VK) -> bv16,
    kscm: (bv8, SC) -> bv16,
    vkToSc: VK -> bv16,
    os: OsVersion)

  predicate ValidConfig(cfg: Config)
  {
    |cfg.vkKeys| == 256 && |cfg.scKeys| == 512
  }

  // ---------------------------------------------------------------------
  // Events in and out.

  /** One call of LowLevelKeybdProc: `hcAction` is code == HC_ACTION, `keyUp`
      comes from wParam, the rest from the KBDLLHOOKSTRUCT, `ignore` is
      dwExtraInfo == KEYIGNORE, `tick` is what GetTickCount() returns during
      the call and `numLockOn` what IsKeyToggledOn(VK_NUMLOCK) returns. */
  datatype KeyboardEvent = KeyboardEvent(
    hcAction: bool,
    keyUp: bool,
    vk: VK,
    scanCode: bv32,
    extended: bool,
    injected: bool,
    ignore: bool,
    time: bv32,
    tick: bv32,
    numLockOn: bool)

  /** A KeyEvent() call; sc is 0 where the source passes none. */
  datatype KeyEventType = KeyDown | KeyUp | KeyDownAndUp
  datatype SentKey = SentKey(kind: KeyEventType, vk: VK, sc: SC)

  function Up(vk: VK): SentKey { SentKey(KeyUp, vk, 0) }
  function Down(vk: VK): SentKey { SentKey(KeyDown, vk, 0) }
  const TabPress: SentKey := SentKey(KeyDownAndUp, VK_TAB, 0)

  /** What the hook tells Windows: pass the event on (CallNextHookEx), swallow
      it (return 1), or swallow it and send it again wrapped in Shift-down /
      Shift-up so that a lone Win or Alt release does not open a menu. */
  datatype Disposition = Allow | Suppress | AllowDisguised

  // ---------------------------------------------------------------------
  // Modifier and physical-state tracking.

  /** prior_vk, prior_sc, prior_event_was_key_up, prior_event_was_physical,
      prior_event_tickcount. */
  datatype PriorEvent = PriorEvent(vk: VK, sc: SC, keyUp: bool, physical: bool, tick: bv32)

  /** prior_modifiersLR_physical, prior_shift_state, prior_lshift_state. */
  datatype ShiftSnapshot = ShiftSnapshot(modPhysical: bv8, shift: bool, lshift: bool)

  /** The statics that EventIsPhysical, UpdateModifierState and
      UpdateKeyState read and write. */
  datatype Tracker = Tracker(
    modLogical: bv8,                 // g_modifiersLR_logical
    modPhysical: bv8,                // g_modifiersLR_physical
    physKey: seq<bool>,              // g_PhysicalKeyState
    padState: seq<bool>,             // pad_state
    notPhysLatch: bool,              // next_phys_shift_down_is_not_phys
    prior: PriorEvent,
    snap: ShiftSnapshot,
    timeLastInputPhysical: bv32)     // g_TimeLastInputPhysical

  predicate TrackerOk(t: Tracker)
  {
    |t.physKey| == 256 && |t.padState| == PAD_TOTAL_COUNT
  }

  /** Some qualified numpad key is held (DualStateNumpadKeyIsDown). */
  ghost predicate PadDown(pad: seq<bool>)
  {
    exists i :: 0 <= i < |pad| && pad[i]
  }

  predicate IsShiftDown(e: KeyboardEvent)
  {
    (e.vk == VK_LSHIFT || e.vk == VK_SHIFT) && !e.keyUp
  }

  /** The previous event released a dual-state numpad key less than the
      timeout ago (ticks subtract with 32-bit wrap-around). */
  predicate FollowsNumpadUp(p: PriorEvent, e: KeyboardEvent)
  {
    p.keyUp && IsDualStateNumpadKey(p.vk, p.sc) && WithinShiftTimeout(e.tick, p.tick)
  }

  /** EventIsPhysical (lines 158-184): whether the event came from the
      user's hand.  A non-injected LShift or Shift down is still driver-made
      when the latch is set with no numpad key held (the latch is then
      consumed) or when it follows a numpad release. */
  ghost function EventIsPhysical(t: Tracker, e: KeyboardEvent): (r: (bool, Tracker))
    ensures e.injected ==> !r.0
    ensures !e.injected && !IsShiftDown(e) ==> r.0
    ensures !e.injected && IsShiftDown(e) ==>
              (!r.0 <==> (t.notPhysLatch && !PadDown(t.padState)) || FollowsNumpadUp(t.prior, e))
    ensures r.1.notPhysLatch <==> t.notPhysLatch && !(!e.injected && IsShiftDown(e) && !PadDown(t.padState))
    ensures r.1.timeLastInputPhysical == if r.0 then e.time else t.timeLastInputPhysical
    ensures r.1 == t.(notPhysLatch := r.1.notPhysLatch, timeLastInputPhysical := r.1.timeLastInputPhysical)
  {
    if e.injected then (false, t)
    else if IsShiftDown(e) && t.notPhysLatch && !PadDown(t.padState) then (false, t.(notPhysLatch := false))
    else if IsShiftDown(e) && FollowsNumpadUp(t.prior, e) then (false, t)
    else (true, t.(timeLastInputPhysical := e.time))
  }

  /** g_PhysicalKeyState after a physical event of a modifier: its own entry
      follows the event and the neutral entry is down iff either side is. */
  function PressPhysical(p: seq<bool>, slot: Slot, down: bool): (r: seq<bool>)
    requires |p| == 256 && slot.key != slot.other
    requires slot.neutral.Some? ==> slot.neutral.value != slot.key && slot.neutral.value != slot.other
    ensures |r| == 256 && r[slot.key] == down && r[slot.other] == p[slot.other]
    ensures slot.neutral.Some? ==> r[slot.neutral.value] == (r[slot.key] || r[slot.other])
    ensures forall i :: 0 <= i < 256 && i != slot.key && Some(i) != slot.neutral ==> r[i] == p[i]
  {
    var p1 := p[slot.key := down];
    match slot.neutral
    case None => p1
    case Some(n) => p1[n := if down then true else p1[slot.other]]
  }

  /** UpdateModifierState (lines 198-544): the event's own modifier bit in
      the logical mask (unless suppressed), then, if the event is physical,
      in the physical mask and g_PhysicalKeyState. */
  ghost function UpdateModifierState(t: Tracker, e: KeyboardEvent, sc: SC, suppressed: bool): (r: Tracker)
    requires TrackerOk(t)
    ensures TrackerOk(r) && r.padState == t.padState && r.prior == t.prior && r.snap == t.snap
    ensures ModifierSlot(e.vk, sc).None? ==> r == t
  {
    match ModifierSlot(e.vk, sc)
    case None => t
    case Some(slot) =>
      var t1 := if suppressed then t else t.(modLogical := SetModifierBit(t.modLogical, slot.bit, !e.keyUp));
      PhysicalModifierUpdate(t1, e, slot)
  }

  /** The physical half of UpdateModifierState: if the event is physical,
      its bit in the physical mask and its g_PhysicalKeyState entries. */
  ghost function PhysicalModifierUpdate(t: Tracker, e: KeyboardEvent, slot: Slot): (r: Tracker)
    requires TrackerOk(t) && slot.key != slot.other
    requires slot.neutral.Some? ==> slot.neutral.value != slot.key && slot.neutral.value != slot.other
    ensures TrackerOk(r) && r.padState == t.padState && r.prior == t.prior && r.snap == t.snap
    ensures r.modLogical == t.modLogical
    ensures r.notPhysLatch <==> t.notPhysLatch && !(!e.injected && IsShiftDown(e) && !PadDown(t.padState))
  {
    var c := EventIsPhysical(t, e);
    if c.0 then
      c.1.(modPhysical := SetModifierBit(c.1.modPhysical, slot.bit, !e.keyUp),
           physKey := PressPhysical(c.1.physKey, slot, !e.keyUp))
    else c.1
  }

  /** The shift event just before this one was physical and recent. */
  predicate RecentPhysicalShift(p: PriorEvent, e: KeyboardEvent)
  {
    p.physical && (p.vk == VK_LSHIFT || p.vk == VK_SHIFT) && WithinShiftTimeout(e.tick, p.tick)
  }

  /** Cases #4 and #5 of the shift workaround: the recent shift event turns
      out to be driver-made. */
  ghost predicate ShiftWasLazy(t: Tracker, e: KeyboardEvent, sc: SC)
  {
    RecentPhysicalShift(t.prior, e)
    && ((!t.prior.keyUp && PadDown(t.padState))
        || (t.prior.keyUp && e.keyUp && IsDualStateNumpadKey(e.vk, sc)))
  }

  /** The recent shift event is taken back from the physical state. */
  ghost predicate ShiftRolledBack(t: Tracker, e: KeyboardEvent, sc: SC)
  {
    ShiftWasLazy(t, e, sc)
    || (RecentPhysicalShift(t.prior, e) && t.prior.keyUp && IsDualStateNumpadKey(e.vk, sc))
  }

  /** Lines 554-573: undo a shift event that proves to be driver-made. */
  ghost function RollBackShift(t: Tracker, e: KeyboardEvent, sc: SC): (r: Tracker)
    requires TrackerOk(t)
    ensures TrackerOk(r)
    ensures r.notPhysLatch == (t.notPhysLatch || ShiftWasLazy(t, e, sc))
    ensures ShiftRolledBack(t, e, sc) ==>
              r.modPhysical == t.snap.modPhysical && r.physKey[VK_SHIFT] == t.snap.shift
              && r.physKey[VK_LSHIFT] == t.snap.lshift
    ensures !ShiftRolledBack(t, e, sc) ==> r.modPhysical == t.modPhysical && r.physKey == t.physKey
    ensures forall i :: 0 <= i < 256 && i != VK_SHIFT && i != VK_LSHIFT ==> r.physKey[i] == t.physKey[i]
    ensures r == t.(notPhysLatch := r.notPhysLatch, modPhysical := r.modPhysical, physKey := r.physKey)
  {
    if RecentPhysicalShift(t.prior, e) then
      var currentIsDualState := IsDualStateNumpadKey(e.vk, sc);
      var fixIt := (!t.prior.keyUp && PadDown(t.padState)) || (t.prior.keyUp && e.keyUp && currentIsDualState);
      var t1 := if fixIt then t.(notPhysLatch := true) else t;
      if fixIt || (t.prior.keyUp && currentIsDualState) then
        t1.(modPhysical := t.snap.modPhysical,
            physKey := t1.physKey[VK_SHIFT := t.snap.shift][VK_LSHIFT := t.snap.lshift])
      else t1
    else t
  }

  /** UpdateKeyState (lines 548-599): shift rollback, a fresh snapshot, the
      modifier update for modifier keys, and the prior-event memory. */
  ghost function UpdateKeyState(cfg: Config, t: Tracker, e: KeyboardEvent, sc: SC, suppressed: bool): (r: Tracker)
    requires ValidConfig(cfg) && TrackerOk(t)
    ensures TrackerOk(r) && r.padState == t.padState
    ensures r.prior.vk == e.vk && r.prior.sc == sc && r.prior.keyUp == e.keyUp && r.prior.tick == e.tick
    ensures e.injected ==> !r.prior.physical
    ensures r.modLogical == if cfg.vkKeys[e.vk].asModifiersLR != 0 && ModifierSlot(e.vk, sc).Some? && !suppressed
                            then SetModifierBit(t.modLogical, ModifierSlot(e.vk, sc).value.bit, !e.keyUp)
                            else t.modLogical
    ensures cfg.vkKeys[e.vk].asModifiersLR == 0 ==>
              r.modPhysical == RollBackShift(t, e, sc).modPhysical && r.physKey == RollBackShift(t, e, sc).physKey
  {
    RememberEvent(ModifierStage(cfg, t, e, sc, suppressed), e, sc)
  }

  /** Lines 548-589, the part of UpdateKeyState before the event is
      remembered: shift rollback, a fresh snapshot, and the modifier update
      for a key configured as a modifier. */
  ghost function ModifierStage(cfg: Config, t: Tracker, e: KeyboardEvent, sc: SC, suppressed: bool): (r: Tracker)
    requires ValidConfig(cfg) && TrackerOk(t)
    ensures TrackerOk(r) && r.padState == t.padState
    ensures r.modLogical == if cfg.vkKeys[e.vk].asModifiersLR != 0 && ModifierSlot(e.vk, sc).Some? && !suppressed
                            then SetModifierBit(t.modLogical, ModifierSlot(e.vk, sc).value.bit, !e.keyUp)
                            else t.modLogical
    ensures cfg.vkKeys[e.vk].asModifiersLR == 0 ==>
              r.modPhysical == RollBackShift(t, e, sc).modPhysical && r.physKey == RollBackShift(t, e, sc).physKey
  {
    var t1 := RollBackShift(t, e, sc);
    var t2 := t1.(snap := ShiftSnapshot(t1.modPhysical, t1.physKey[VK_SHIFT], t1.physKey[VK_LSHIFT]));
    ModifierStateLogicalMask(t2, e, sc, suppressed);
    if cfg.vkKeys[e.vk].asModifiersLR != 0 then UpdateModifierState(t2, e, sc, suppressed) else t2
  }

  /** Lines 590-598: the event becomes the prior event, remembered as
      physical unless it is injected or the latch (or a numpad release just
      before) marks an LShift/Shift press as driver-made. */
  ghost function RememberEvent(t: Tracker, e: KeyboardEvent, sc: SC): (r: Tracker)
    requires TrackerOk(t)
    ensures TrackerOk(r) && r.padState == t.padState
    ensures r.prior.vk == e.vk && r.prior.sc == sc && r.prior.keyUp == e.keyUp && r.prior.tick == e.tick
    ensures r.prior.physical <==> !e.injected && !(IsShiftDown(e) && t.notPhysLatch && !PadDown(t.padState))
    ensures r.modLogical == t.modLogical && r.modPhysical == t.modPhysical && r.physKey == t.physKey
    ensures r.snap == t.snap
  {
    var t1 := t.(prior := t.prior.(vk := e.vk, sc := sc, keyUp := e.keyUp));
    var c := EventIsPhysical(t1, e);
    assert IsShiftDown(e) ==> !FollowsNumpadUp(t1.prior, e);
    c.1.(prior := c.1.prior.(physical := c.0, tick := e.tick))
  }

  /** The logical mask after UpdateModifierState: the event's own bit
      follows it unless the event is suppressed. */
  lemma ModifierStateLogicalMask(t: Tracker, e: KeyboardEvent, sc: SC, suppressed: bool)
    requires TrackerOk(t)
    ensures UpdateModifierState(t, e, sc, suppressed).modLogical
              == if ModifierSlot(e.vk, sc).Some? && !suppressed
                 then SetModifierBit(t.modLogical, ModifierSlot(e.vk, sc).value.bit, !e.keyUp)
                 else t.modLogical
  {
  }

  /** Lines 945-961: with Numlock on, a non-extended numpad key records
      whether it is held, in the slot shared by its two VKs. */
  function TrackNumpad(t: Tracker, e: KeyboardEvent, sc: SC): (r: Tracker)
    requires TrackerOk(t)
    ensures TrackerOk(r) && r == t.(padState := r.padState)
    ensures !IsExtended(sc) && e.numLockOn && PadIndex(e.vk).Some? ==>
              r.padState == t.padState[PadIndex(e.vk).value := !e.keyUp]
    ensures !(!IsExtended(sc) && e.numLockOn && PadIndex(e.vk).Some?) ==> r == t
  {
    if !IsExtended(sc) && e.numLockOn then
      match PadIndex(e.vk)
      case Some(i) => t.(padState := t.padState[i := !e.keyUp])
      case None => t
    else t
  }

  /** Lines 980-981: a non-modifier key's physical state. */
  ghost function TrackPhysicalKey(cfg: Config, t: Tracker, e: KeyboardEvent): (r: Tracker)
    requires ValidConfig(cfg) && TrackerOk(t)
    ensures TrackerOk(r) && r.padState == t.padState && r.prior == t.prior
    ensures cfg.vkKeys[e.vk].asModifiersLR != 0 ==> r == t
    ensures forall i :: 0 <= i < 256 && i != e.vk ==> r.physKey[i] == t.physKey[i]
    ensures r.modLogical == t.modLogical && r.modPhysical == t.modPhysical
    ensures cfg.vkKeys[e.vk].asModifiersLR == 0 ==>
              r.physKey[e.vk] == if EventIsPhysical(t, e).0 then !e.keyUp else t.physKey[e.vk]
  {
    if cfg.vkKeys[e.vk].asModifiersLR == 0 then
      var c := EventIsPhysical(t, e);
      if c.0 then c.1.(physKey := c.1.physKey[e.vk := !e.keyUp]) else c.1
    else t
  }

  // ---------------------------------------------------------------------
  // The key history ring (lines 919-933).

  /** A KeyHistoryItem without the window title; the elapsed time is kept in
      ticks.  eventType is ' ' (passed), 'i' (ignored), 's' (suppressed) or
      'h' (hook hotkey). */
  datatype HistoryItem = HistoryItem(vk: VK, sc: SC, keyUp: bool, eventType: char, elapsedTicks: bv32)

  /** g_KeyHistory, g_KeyHistoryNext and g_HistoryTickPrev. */
  datatype KeyHistory = KeyHistory(items: seq<HistoryItem>, next: nat, tickPrev: bv32)

  predicate HistoryOk(h: KeyHistory)
  {
    0 < |h.items| && h.next < |h.items|
  }

  /** Fill the slot at the cursor and advance the cursor, wrapping to 0. */
  function RecordHistory(h: KeyHistory, e: KeyboardEvent, sc: SC): (r: KeyHistory)
    requires HistoryOk(h)
    ensures HistoryOk(r) && |r.items| == |h.items| && r.next == (h.next + 1) % |h.items|
    ensures r.items[h.next] == HistoryItem(e.vk, sc, e.keyUp, if e.ignore then 'i' else ' ', TicksSince(e.tick, h.tickPrev))
    ensures forall i :: 0 <= i < |h.items| && i != h.next ==> r.items[i] == h.items[i]
    ensures r.tickPrev == e.tick
  {
    var cur := h.next;
    var next := if h.next + 1 >= |h.items| then 0 else h.next + 1;
    var item := HistoryItem(e.vk, sc, e.keyUp, if e.ignore then 'i' else ' ', TicksSince(e.tick, h.tickPrev));
    KeyHistory(h.items[cur := item], next, e.tick)
  }

  // ---------------------------------------------------------------------
  // Key records and the whole hook state.

  datatype JustUsed = NotUsed | AsPrefix | AsPrefixForHotkey

  /** The runtime half of a key_type record. */
  datatype KeyState = KeyState(
    isDown: bool,
    downPerformedAction: bool,
    wasJustUsed: JustUsed,
    itPutAltDown: bool,
    itPutShiftDown: bool)

  /** A pointer into kvk[] or ksc[]; pPrefixKey is an Option<KeyRef>. */
  datatype KeyRef = VkKey(vk: VK) | ScKey(sc: SC)

  /** disguise_next_lwin_up, ..._rwin_up, ..._lalt_up, ..._ralt_up. */
  datatype DisguiseNext = DisguiseNext(lwin: bool, rwin: bool, lalt: bool, ralt: bool)

  datatype State = State(
    tracker: Tracker,
    vkKeys: seq<KeyState>,           // kvk[] runtime fields
    scKeys: seq<KeyState>,           // ksc[] runtime fields
    prefixKey: Option<KeyRef>,       // pPrefixKey
    altTabMenuIsVisible: bool,       // alt_tab_menu_is_visible
    disguise: DisguiseNext,
    history: KeyHistory,
    sent: seq<SentKey>,              // every KeyEvent() call so far
    posted: seq<bv16>)               // every AHK_HOOK_HOTKEY message so far

  predicate WellFormed(s: State)
  {
    TrackerOk(s.tracker) && |s.vkKeys| == 256 && |s.scKeys| == 512 && HistoryOk(s.history)
  }

  /** Lines 93-102 give the file's own statics their starting values (all
      false or zero); the globals it shares with the rest of the program
      start the same way, with an empty history of the given capacity. */
  function InitialState(capacity: nat): (r: State)
    requires 0 < capacity
    ensures WellFormed(r) && |r.history.items| == capacity && r.history.next == 0
    ensures r.prefixKey.None? && r.tracker.modLogical == 0 && r.tracker.modPhysical == 0
    ensures !PadDown(r.tracker.padState) && !r.tracker.notPhysLatch
  {
    State(Tracker(0, 0, seq(256, _ => false), seq(PAD_TOTAL_COUNT, _ => false), false,
                  PriorEvent(0, 0, false, false, 0), ShiftSnapshot(0, false, false), 0),
          seq(256, _ => NoKeyState), seq(512, _ => NoKeyState), None, false,
          DisguiseNext(false, false, false, false),
          KeyHistory(seq(capacity, _ => NoHistoryItem), 0, 0), [], [])
  }

  const NoKeyState: KeyState := KeyState(false, false, NotUsed, false, false)
  const NoHistoryItem: HistoryItem := HistoryItem(0, 0, false, ' ', 0)

  predicate Ready(cfg: Config, s: State, cur: nat)
  {
    ValidConfig(cfg) && WellFormed(s) && cur < |s.history.items|
  }

  /** What every routine after the history step keeps: well-formedness, the
      ring's size and cursor, and the output logs, which only grow. */
  predicate Extends(s: State, r: State)
  {
    WellFormed(r) && |r.history.items| == |s.history.items| && r.history.next == s.history.next
    && s.sent <= r.sent && s.posted <= r.posted
  }

  /** The key records and the prefix pointer are untouched. */
  predicate KeysUnchanged(s: State, r: State)
  {
    r.vkKeys == s.vkKeys && r.scKeys == s.scKeys && r.prefixKey == s.prefixKey
  }

  function Rec(s: State, k: KeyRef): KeyState
    requires WellFormed(s)
  {
    match k
    case VkKey(v) => s.vkKeys[v]
    case ScKey(c) => s.scKeys[c]
  }

  function KeyCfg(cfg: Config, k: KeyRef): KeyConfig
    requires ValidConfig(cfg)
  {
    match k
    case VkKey(v) => cfg.vkKeys[v]
    case ScKey(c) => cfg.scKeys[c]
  }

  /** Writes one key record; every other record and every other part of the
      state keeps its value. */
  function WithRec(s: State, k: KeyRef, ks: KeyState): (r: State)
    requires WellFormed(s)
    ensures WellFormed(r) && Rec(r, k) == ks
    ensures forall k2 :: k2 != k ==> Rec(r, k2) == Rec(s, k2)
    ensures r.tracker == s.tracker && r.prefixKey == s.prefixKey && r.history == s.history
    ensures r.altTabMenuIsVisible == s.altTabMenuIsVisible && r.disguise == s.disguise
    ensures r.sent == s.sent && r.posted == s.posted
  {
    match k
    case VkKey(v) => s.(vkKeys := s.vkKeys[v := ks])
    case ScKey(c) => s.(scKeys := s.scKeys[c := ks])
  }

  function SetJustUsed(s: State, k: KeyRef, u: JustUsed): (r: State)
    requires WellFormed(s)
    ensures WellFormed(r) && Extends(s, r) && r.sent == s.sent && r.prefixKey == s.prefixKey
    ensures Rec(r, k).wasJustUsed == u
  {
    WithRec(s, k, Rec(s, k).(wasJustUsed := u))
  }

  function Send(s: State, keys: seq<SentKey>): (r: State)
    ensures r == s.(sent := s.sent + keys)
    ensures WellFormed(s) ==> Extends(s, r)
  {
    s.(sent := s.sent + keys)
  }

  function SetEventType(s: State, cur: nat, t: char): (r: State)
    requires WellFormed(s) && cur < |s.history.items|
    ensures Extends(s, r) && KeysUnchanged(s, r) && r.history.items[cur].eventType == t
    ensures r.sent == s.sent && r.tracker == s.tracker && r.altTabMenuIsVisible == s.altTabMenuIsVisible
  {
    s.(history := s.history.(items := s.history.items[cur := s.history.items[cur].(eventType := t)]))
  }

  // ---------------------------------------------------------------------
  // SuppressThisKeyFunc (lines 607-670) and AllowIt (lines 679-804)

  /** Numlock pressed and released twice, so that a suppressed Numlock press
      leaves the indicator as it was. */
  const NumLockRestore: seq<SentKey> := [Up(VK_NUMLOCK), Down(VK_NUMLOCK), Up(VK_NUMLOCK), Down(VK_NUMLOCK)]

  ghost function SuppressThisKey(cfg: Config, s: State, e: KeyboardEvent, sc: SC, cur: nat): (r: State)
    requires Ready(cfg, s, cur)
    ensures Extends(s, r) && KeysUnchanged(s, r)
    ensures r.history.items[cur].eventType ==
              if s.history.items[cur].eventType == ' ' then 's' else s.history.items[cur].eventType
    ensures forall i :: 0 <= i < |s.history.items| && i != cur ==> r.history.items[i] == s.history.items[i]
    ensures r.sent == s.sent + (if e.vk == VK_NUMLOCK && !e.keyUp && !e.ignore then NumLockRestore else [])
    ensures r.altTabMenuIsVisible == s.altTabMenuIsVisible && r.disguise == s.disguise && r.posted == s.posted
  {
    var s1 := if s.history.items[cur].eventType == ' ' then SetEventType(s, cur, 's') else s;
    var s2 := if e.vk == VK_NUMLOCK && !e.keyUp && !e.ignore then Send(s1, NumLockRestore) else s1;
    s2.(tracker := UpdateKeyState(cfg, s2.tracker, e, sc, true))
  }

  datatype Outcome = Outcome(st: State, disp: Disposition)

  ghost function Suppressed(cfg: Config, s: State, e: KeyboardEvent, sc: SC, cur: nat): (r: Outcome)
    requires Ready(cfg, s, cur)
    ensures r.disp == Suppress && Extends(s, r.st) && KeysUnchanged(s, r.st)
  {
    Outcome(SuppressThisKey(cfg, s, e, sc, cur), Suppress)
  }

  /** The toggle setting pins a lock key on or off. */
  predicate TogglePinned(kc: KeyConfig)
  {
    kc.forceToggle.Some? && kc.forceToggle.value != Neutral
  }

  /** Win-L with only one Win key logically down, on XP or later, locks the
      workstation and the hook never sees the Win key go up.  The third
      comparison is written as (MOD_RWIN | MOD_RWIN) in the source. */
  predicate WinLockReset(m: bv8)
  {
    m == MOD_LWIN || m == MOD_RWIN || m == (MOD_RWIN | MOD_RWIN)
  }

  /** Ctrl-Alt-Del physically held (no Shift), where the OS swallows the
      releases. */
  predicate CtrlAltDelHeld(p: bv8)
  {
    p & (MOD_LCONTROL | MOD_RCONTROL) != 0 && p & (MOD_LALT | MOD_RALT) != 0
    && p & (MOD_LSHIFT | MOD_RSHIFT) == 0
  }

  predicate IsWinOrAlt(vk: VK)
  {
    vk == VK_LWIN || vk == VK_RWIN || vk == VK_LMENU || vk == VK_RMENU || vk == VK_MENU
  }

  predicate IsAlt(vk: VK) { vk == VK_LMENU || vk == VK_RMENU || vk == VK_MENU }
  predicate IsShift(vk: VK) { vk == VK_LSHIFT || vk == VK_RSHIFT || vk == VK_SHIFT }
  predicate IsControl(vk: VK) { vk == VK_LCONTROL || vk == VK_RCONTROL || vk == VK_CONTROL }

  /** The Shift-wrapped resend of a Win/Alt release. */
  function DisguisedRelease(e: KeyboardEvent, sc: SC): seq<SentKey>
  {
    [Down(VK_SHIFT), SentKey(if e.keyUp then KeyUp else KeyDown, e.vk, sc), Up(VK_SHIFT)]
  }

  /** Lines 707-723: Win-L resets the modifier tracking. */
  function WinLockResetApplied(cfg: Config, t: Tracker, e: KeyboardEvent): (r: Tracker)
    requires TrackerOk(t)
    ensures TrackerOk(r) && r.padState == t.padState && r.prior == t.prior
    ensures e.vk == VK_L && !e.keyUp && WinLockReset(t.modLogical) && cfg.os.isWinXPorLater ==>
              r.modLogical == 0 && r.modPhysical == 0
              && !r.physKey[VK_L] && !r.physKey[VK_LWIN] && !r.physKey[VK_RWIN]
              && forall i :: 0 <= i < 256 && i != VK_L && i != VK_LWIN && i != VK_RWIN ==> r.physKey[i] == t.physKey[i]
    ensures !(e.vk == VK_L && !e.keyUp && WinLockReset(t.modLogical) && cfg.os.isWinXPorLater) ==> r == t
  {
    if e.vk == VK_L && !e.keyUp && WinLockReset(t.modLogical) && cfg.os.isWinXPorLater then
      t.(modLogical := 0, modPhysical := 0,
         physKey := t.physKey[e.vk := false][VK_LWIN := false][VK_RWIN := false])
    else t
  }

  /** Ctrl-Alt-Del pressed on Windows 2000/NT4 while Ctrl and Alt are
      physically held. */
  predicate CtrlAltDelResets(cfg: Config, t: Tracker, e: KeyboardEvent)
  {
    (e.vk == VK_DELETE || e.vk == VK_DECIMAL) && !e.keyUp && CtrlAltDelHeld(t.modPhysical)
    && (cfg.os.isWin2000 || cfg.os.isWinNT4)
  }

  /** Lines 728-761: Ctrl-Alt-Del on Windows 2000/NT4 resets it too. */
  function CtrlAltDelResetApplied(cfg: Config, t: Tracker, e: KeyboardEvent): (r: Tracker)
    requires TrackerOk(t)
    ensures TrackerOk(r) && r.padState == t.padState && r.prior == t.prior
    ensures CtrlAltDelResets(cfg, t, e) ==>
              r.modLogical == 0 && r.modPhysical == 0 && !r.physKey[e.vk]
              && !r.physKey[VK_LCONTROL] && !r.physKey[VK_RCONTROL] && !r.physKey[VK_LMENU] && !r.physKey[VK_RMENU]
              && forall i :: (0 <= i < 256 && i != e.vk && i != VK_LCONTROL && i != VK_RCONTROL
                              && i != VK_LMENU && i != VK_RMENU) ==> r.physKey[i] == t.physKey[i]
    ensures !CtrlAltDelResets(cfg, t, e) ==> r == t
  {
    if CtrlAltDelResets(cfg, t, e) then
      t.(modLogical := 0, modPhysical := 0,
         physKey := t.physKey[e.vk := false][VK_LCONTROL := false][VK_RCONTROL := false]
                              [VK_LMENU := false][VK_RMENU := false])
    else t
  }

  /** Lines 773-781: the user letting go of Alt closes the Alt-Tab menu; a
      release the hook already marked as a hotkey ('h') or as suppressed
      ('s') does not. */
  predicate AltUpClosesMenu(cfg: Config, s: State, e: KeyboardEvent, cur: nat)
    requires Ready(cfg, s, cur)
  {
    cfg.vkKeys[e.vk].asModifiersLR != 0 && IsAlt(e.vk) && e.keyUp
    && s.history.items[cur].eventType != 'h' && s.history.items[cur].eventType != 's'
  }

  ghost function AllowIt(cfg: Config, s: State, e: KeyboardEvent, sc: SC, cur: nat, disguiseWinAlt: bool): (r: Outcome)
    requires Ready(cfg, s, cur)
    ensures Extends(s, r.st) && KeysUnchanged(s, r.st)
    ensures r.disp == Suppress <==> !e.ignore && TogglePinned(cfg.vkKeys[e.vk])
    ensures r.disp == AllowDisguised <==>
              !(!e.ignore && TogglePinned(cfg.vkKeys[e.vk])) && cfg.vkKeys[e.vk].asModifiersLR != 0
              && disguiseWinAlt && e.keyUp && IsWinOrAlt(e.vk)
    ensures r.disp == AllowDisguised ==> r.st.sent == s.sent + DisguisedRelease(e, sc)
    ensures r.disp == Allow ==> r.st.sent == s.sent && r.st.history == s.history
    ensures r.st.posted == s.posted && r.st.disguise == s.disguise
    ensures r.st.altTabMenuIsVisible ==> s.altTabMenuIsVisible
    ensures r.st.altTabMenuIsVisible <==>
              s.altTabMenuIsVisible && !(r.disp != Suppress && AltUpClosesMenu(cfg, s, e, cur))
    ensures r.disp == Suppress ==> r.st.tracker == UpdateKeyState(cfg, s.tracker, e, sc, true)
    ensures r.disp != Suppress ==>
              r.st.tracker == CtrlAltDelResetApplied(cfg, WinLockResetApplied(cfg, UpdateKeyState(cfg, s.tracker, e, sc, false), e), e)
    ensures r.disp == AllowDisguised ==>
              r.st.history.items[cur].eventType == if s.history.items[cur].eventType == 'h' then 'h' else 's'
  {
    var kc := cfg.vkKeys[e.vk];
    if !e.ignore && TogglePinned(kc) then Suppressed(cfg, s, e, sc, cur)
    else
      var t1 := UpdateKeyState(cfg, s.tracker, e, sc, false);
      var t2 := WinLockResetApplied(cfg, t1, e);
      var s3 := s.(tracker := CtrlAltDelResetApplied(cfg, t2, e));
      if kc.asModifiersLR == 0 then Outcome(s3, Allow)
      else PassModifier(cfg, s3, e, sc, cur, disguiseWinAlt)
  }

  /** Lines 764-803, the end of AllowIt for a key configured as a modifier:
      a let-through Alt release that was neither a hotkey nor suppressed
      closes the Alt-Tab menu, and a Win/Alt release asked to be disguised
      is replaced by Shift down, the key, Shift up and logged 's' unless it
      is already logged as a hotkey. */
  ghost function PassModifier(cfg: Config, s: State, e: KeyboardEvent, sc: SC, cur: nat, disguiseWinAlt: bool): (r: Outcome)
    requires Ready(cfg, s, cur)
    ensures Extends(s, r.st) && KeysUnchanged(s, r.st)
    ensures r.st.tracker == s.tracker && r.st.posted == s.posted && r.st.disguise == s.disguise
    ensures r.disp != Suppress
    ensures r.disp == AllowDisguised <==> disguiseWinAlt && e.keyUp && IsWinOrAlt(e.vk)
    ensures r.disp == AllowDisguised ==>
              r.st.sent == s.sent + DisguisedRelease(e, sc)
              && r.st.history.items[cur].eventType == if s.history.items[cur].eventType == 'h' then 'h' else 's'
    ensures r.disp == Allow ==> r.st.sent == s.sent && r.st.history == s.history
    ensures r.st.altTabMenuIsVisible <==>
              s.altTabMenuIsVisible
              && !(IsAlt(e.vk) && e.keyUp && s.history.items[cur].eventType != 'h' && s.history.items[cur].eventType != 's')
  {
    var s4 := if s.altTabMenuIsVisible && IsAlt(e.vk) && e.keyUp
                 && s.history.items[cur].eventType != 'h' && s.history.items[cur].eventType != 's'
              then s.(altTabMenuIsVisible := false) else s;
    if disguiseWinAlt && e.keyUp && IsWinOrAlt(e.vk) then
      var s5 := Send(s4, DisguisedRelease(e, sc));
      var s6 := if s5.history.items[cur].eventType != 'h' then SetEventType(s5, cur, 's') else s5;
      Outcome(s6, AllowDisguised)
    else Outcome(s4, Allow)
  }

  /** Modifiers and neutral lock keys keep their native function; every
      other key is swallowed. */
  predicate KeepsNativeFunction(kc: KeyConfig)
  {
    kc.asModifiersLR != 0 || kc.forceToggle == Some(Neutral)
  }

  ghost function NativeOrSuppress(cfg: Config, s: State, e: KeyboardEvent, sc: SC, cur: nat, kc: KeyConfig): (r: Outcome)
    requires Ready(cfg, s, cur)
    ensures Extends(s, r.st) && KeysUnchanged(s, r.st)
    ensures !KeepsNativeFunction(kc) ==> r.disp == Suppress
    ensures KeepsNativeFunction(kc) ==>
              (r.disp == Suppress <==> !e.ignore && TogglePinned(cfg.vkKeys[e.vk])) && r.disp != AllowDisguised
  {
    if KeepsNativeFunction(kc) then AllowIt(cfg, s, e, sc, cur, false) else Suppressed(cfg, s, e, sc, cur)
  }

  // ---------------------------------------------------------------------
  // LowLevelKeybdProc, bookkeeping done for every event (lines 919-1030)

  /** Lines 967-970: Alt-Tab by the user (Alt down, no Ctrl) shows the menu. */
  function NoteAltTabMenu(visible: bool, m: bv8, e: KeyboardEvent): (r: bool)
    ensures r <==> visible
                   || (e.vk == VK_TAB && !e.keyUp && m & (MOD_LALT | MOD_RALT) != 0
                       && m & (MOD_LCONTROL | MOD_RCONTROL) == 0)
  {
    if e.vk == VK_TAB && !e.keyUp && !visible
       && (m & MOD_LALT != 0 || m & MOD_RALT != 0) && m & MOD_LCONTROL == 0 && m & MOD_RCONTROL == 0
    then true
    else visible
  }

  /** Lines 1002-1004: the release of a Win/Alt key that an earlier hotkey
      asked to disguise. */
  predicate DisguiseUpPending(d: DisguiseNext, e: KeyboardEvent)
  {
    e.keyUp
    && ((d.lwin && e.vk == VK_LWIN) || (d.rwin && e.vk == VK_RWIN)
        || (d.lalt && (e.vk == VK_LMENU || e.vk == VK_MENU)) || (d.ralt && e.vk == VK_RMENU))
  }

  /** Lines 1007-1019: the pending flag is consumed. */
  function ClearDisguise(d: DisguiseNext, vk: VK): (r: DisguiseNext)
    ensures vk == VK_LWIN ==> !r.lwin
    ensures vk == VK_RWIN ==> !r.rwin
    ensures vk == VK_LMENU || vk == VK_MENU ==> !r.lalt
    ensures vk == VK_RMENU ==> !r.ralt
    ensures (r.lwin ==> d.lwin) && (r.rwin ==> d.rwin) && (r.lalt ==> d.lalt) && (r.ralt ==> d.ralt)
    ensures vk != VK_LWIN ==> r.lwin == d.lwin
    ensures vk != VK_RWIN ==> r.rwin == d.rwin
    ensures vk != VK_LMENU && vk != VK_MENU ==> r.lalt == d.lalt
    ensures vk != VK_RMENU ==> r.ralt == d.ralt
  {
    if vk == VK_LWIN then d.(lwin := false)
    else if vk == VK_RWIN then d.(rwin := false)
    else if vk == VK_MENU || vk == VK_LMENU then d.(lalt := false)
    else if vk == VK_RMENU then d.(ralt := false)
    else d
  }

  // ---------------------------------------------------------------------
  // LowLevelKeybdProc, prefix and suffix handling (lines 1045-1293)

  /** Line 1045: the record an event uses. */
  function ThisKey(cfg: Config, e: KeyboardEvent, sc: SC): (k: KeyRef)
    requires ValidConfig(cfg)
    ensures k.ScKey? <==> cfg.scKeys[sc].scTakesPrecedence
    ensures k.ScKey? ==> k.sc == sc
    ensures k.VkKey? ==> k.vk == e.vk
  {
    if cfg.scKeys[sc].scTakesPrecedence then ScKey(sc) else VkKey(e.vk)
  }

  /** Lines 1052-1102: leave early for a repeat of the active prefix, note
      that the active prefix modified a key, let plain keys through, and
      update the key's own down state. */
  ghost function Dispatch(cfg: Config, s: State, e: KeyboardEvent, sc: SC, cur: nat): (r: Outcome)
    requires Ready(cfg, s, cur)
    ensures Extends(s, r.st)
  {
    var k := ThisKey(cfg, e, sc);
    var kc := KeyCfg(cfg, k);
    if s.prefixKey == Some(k) && !e.keyUp then
      if kc.asModifiersLR != 0 then AllowIt(cfg, s, e, sc, cur, false) else Suppressed(cfg, s, e, sc, cur)
    else
      var s1 := if s.prefixKey.Some? && !e.keyUp && kc.asModifiersLR == 0
                then SetJustUsed(s, s.prefixKey.value, AsPrefix) else s;
      if !kc.usedAsPrefix && !kc.usedAsSuffix then AllowIt(cfg, s1, e, sc, cur, false)
      else
        PrefixSuffix(cfg, NoteKeyDown(s1, k, e.keyUp), e, sc, cur, k,
                     Rec(s1, k).isDown, Rec(s1, k).downPerformedAction)
  }

  /** Lines 1093-1100: a release clears the record's action flag (after
      its old value was read) and is_down follows the event. */
  function NoteKeyDown(s: State, k: KeyRef, keyUp: bool): (r: State)
    requires WellFormed(s)
    ensures Extends(s, r) && r.sent == s.sent && r.prefixKey == s.prefixKey
    ensures Rec(r, k).isDown == !keyUp
    ensures Rec(r, k).downPerformedAction == (!keyUp && Rec(s, k).downPerformedAction)
    ensures Rec(r, k).wasJustUsed == Rec(s, k).wasJustUsed
    ensures Rec(r, k).itPutAltDown == Rec(s, k).itPutAltDown && Rec(r, k).itPutShiftDown == Rec(s, k).itPutShiftDown
    ensures forall k2 :: k2 != k ==> Rec(r, k2) == Rec(s, k2)
    ensures r.tracker == s.tracker && r.history == s.history
    ensures r.altTabMenuIsVisible == s.altTabMenuIsVisible && r.disguise == s.disguise
  {
    var s1 := if keyUp then WithRec(s, k, Rec(s, k).(downPerformedAction := false)) else s;
    WithRec(s1, k, Rec(s1, k).(isDown := !keyUp))
  }

  /** Cases 1-3 (lines 1108-1293); what falls through goes on to case 4. */
  ghost function PrefixSuffix(cfg: Config, s: State, e: KeyboardEvent, sc: SC, cur: nat, k: KeyRef,
                              wasDownBeforeUp: bool, downPerformedAction: bool): (r: Outcome)
    requires Ready(cfg, s, cur)
    ensures Extends(s, r.st)
  {
    var kc := KeyCfg(cfg, k);
    if kc.usedAsPrefix && !e.keyUp && (s.prefixKey.None? || !kc.usedAsSuffix) then
      // Case 1: the key becomes the active prefix.
      var s1 := SetJustUsed(s.(prefixKey := Some(k)), k, NotUsed);
      NativeOrSuppress(cfg, s1, e, sc, cur, kc)
    else if kc.usedAsSuffix && s.prefixKey != Some(k) && e.keyUp then
      // Case 2: release of a suffix.
      if downPerformedAction then Suppressed(cfg, s, e, sc, cur) else AllowIt(cfg, s, e, sc, cur, false)
    else if kc.usedAsPrefix && e.keyUp then
      PrefixUp(cfg, s, e, sc, cur, k, wasDownBeforeUp)
    else
      SuffixAction(cfg, s, e, sc, cur, k)
  }

  /** Up, down, up of the key itself: a suppressed release of a neutral lock
      key that served as a prefix leaves its toggle state unchanged. */
  function ToggleRestore(e: KeyboardEvent, sc: SC): seq<SentKey>
  {
    [SentKey(KeyUp, e.vk, sc), SentKey(KeyDown, e.vk, sc), SentKey(KeyUp, e.vk, sc)]
  }

  /** Lines 1184-1204: the prefix pointer is dropped if it is this key, and
      the Alt/Shift that this prefix held down for Alt-Tab are released. */
  function ReleasePrefix(s: State, k: KeyRef): (r: State)
    requires WellFormed(s)
    ensures Extends(s, r)
    ensures r.prefixKey == if s.prefixKey == Some(k) then None else s.prefixKey
    ensures r.sent == s.sent + (if Rec(s, k).itPutAltDown then [Up(VK_MENU)] else [])
                             + (if Rec(s, k).itPutShiftDown then [Up(VK_SHIFT)] else [])
    ensures Rec(r, k) == Rec(s, k).(itPutAltDown := false, itPutShiftDown := false)
    ensures forall k2 :: k2 != k ==> Rec(r, k2) == Rec(s, k2)
    ensures r.tracker == s.tracker && r.history == s.history && r.posted == s.posted
    ensures r.altTabMenuIsVisible == s.altTabMenuIsVisible && r.disguise == s.disguise
  {
    var ks := Rec(s, k);
    var s1 := if s.prefixKey == Some(k) then s.(prefixKey := None) else s;
    var s2 := WithRec(s1, k, ks.(itPutAltDown := false, itPutShiftDown := false));
    Send(s2, (if ks.itPutAltDown then [Up(VK_MENU)] else []) + (if ks.itPutShiftDown then [Up(VK_SHIFT)] else []))
  }

  /** Case 3 (lines 1182-1293): release of a prefix key. */
  ghost function PrefixUp(cfg: Config, s: State, e: KeyboardEvent, sc: SC, cur: nat, k: KeyRef,
                          wasDownBeforeUp: bool): (r: Outcome)
    requires Ready(cfg, s, cur)
    ensures Extends(s, r.st)
    ensures e.keyUp ==> KeysUnchanged(ReleasePrefix(s, k), r.st)
  {
    var kc := KeyCfg(cfg, k);
    var s1 := ReleasePrefix(s, k);
    var used := Rec(s1, k).wasJustUsed;
    if kc.forceToggle == Some(Neutral) && used == AsPrefixForHotkey then
      Suppressed(cfg, Send(s1, ToggleRestore(e, sc)), e, sc, cur)
    else if kc.forceToggle == Some(Neutral) && used == AsPrefix then
      AllowIt(cfg, s1, e, sc, cur, false)
    else if kc.forceToggle != Some(Neutral) && used != NotUsed then
      if kc.asModifiersLR != 0 then AllowIt(cfg, s1, e, sc, cur, used == AsPrefixForHotkey)
      else Suppressed(cfg, s1, e, sc, cur)
    else if !kc.usedAsSuffix then NativeOrSuppress(cfg, s1, e, sc, cur, kc)
    else if !wasDownBeforeUp then AllowIt(cfg, s1, e, sc, cur, false)
    else SuffixAction(cfg, s1, e, sc, cur, k)
  }

  // ---------------------------------------------------------------------
  // Case 4: which hotkey the key completes (lines 1299-1510)

  /** The first ModifierVK entry whose prefix is held down. */
  function FirstDownVk(list: seq<VkOverride>, keys: seq<KeyState>): (r: Option<nat>)
    requires |keys| == 256
    ensures r.Some? ==> r.value < |list| && keys[list[r.value].vk].isDown
    ensures r.Some? ==> forall j :: 0 <= j < r.value ==> !keys[list[j].vk].isDown
    ensures r.None? ==> forall j :: 0 <= j < |list| ==> !keys[list[j].vk].isDown
    decreases |list|
  {
    if |list| == 0 then None
    else if keys[list[0].vk].isDown then Some(0)
    else
      match FirstDownVk(list[1..], keys)
      case None => None
      case Some(i) => Some(i + 1)
  }

  /** The first ModifierSC entry whose prefix is held down. */
  function FirstDownSc(list: seq<ScOverride>, keys: seq<KeyState>): (r: Option<nat>)
    requires |keys| == 512
    ensures r.Some? ==> r.value < |list| && keys[list[r.value].sc].isDown
    ensures r.Some? ==> forall j :: 0 <= j < r.value ==> !keys[list[j].sc].isDown
    ensures r.None? ==> forall j :: 0 <= j < |list| ==> !keys[list[j].sc].isDown
    decreases |list|
  {
    if |list| == 0 then None
    else if keys[list[0].sc].isDown then Some(0)
    else
      match FirstDownSc(list[1..], keys)
      case None => None
      case Some(i) => Some(i + 1)
  }

  datatype Lookup = Lookup(st: State, choice: HotkeyChoice)

  /** Lines 1307-1332: with a prefix held, the key's override lists are
      searched, VK entries first; a held prefix found there becomes the active
      prefix and is marked as having fired a hotkey. */
  function OverrideLookup(cfg: Config, s: State, k: KeyRef): (r: Lookup)
    requires ValidConfig(cfg) && WellFormed(s)
    ensures Extends(s, r.st) && r.st.sent == s.sent && r.st.tracker == s.tracker
    ensures r.st.altTabMenuIsVisible == s.altTabMenuIsVisible && r.st.history == s.history
    ensures r.choice.id != HOTKEY_ID_INVALID ==>
              r.st.prefixKey.Some? && Rec(r.st, r.st.prefixKey.value).wasJustUsed == AsPrefixForHotkey
    ensures r.st.prefixKey == s.prefixKey
            || (r.st.prefixKey.Some? && Rec(r.st, r.st.prefixKey.value).wasJustUsed == AsPrefixForHotkey)
  {
    var kc := KeyCfg(cfg, k);
    var l1 := match FirstDownVk(kc.modifierVK, s.vkKeys)
              case Some(i) =>
                var p := VkKey(kc.modifierVK[i].vk);
                Lookup(SetJustUsed(s.(prefixKey := Some(p)), p, AsPrefixForHotkey),
                       SplitHotkeyId(kc.modifierVK[i].idWithFlags))
              case None => Lookup(s, HotkeyChoice(HOTKEY_ID_INVALID, false));
    if l1.choice.id == HOTKEY_ID_INVALID then
      match FirstDownSc(kc.modifierSC, l1.st.scKeys)
      case Some(i) =>
        var p := ScKey(kc.modifierSC[i].sc);
        Lookup(SetJustUsed(l1.st.(prefixKey := Some(p)), p, AsPrefixForHotkey),
               SplitHotkeyId(kc.modifierSC[i].idWithFlags))
      case None => l1
    else l1
  }

  /** The Kscm/Kvkm entry for the key under the given modifiers. */
  function TableEntry(cfg: Config, mods: bv8, vk: VK, sc: SC): bv16
    requires ValidConfig(cfg)
  {
    if cfg.scKeys[sc].scTakesPrecedence then cfg.kscm(mods, sc) else cfg.kvkm(mods, vk)
  }

  /** The logical modifiers without a key's own bits (lines 1440-1441). */
  function WithoutOwnBits(m: bv8, own: bv8): (r: bv8)
    ensures r == m & !own
  {
    if own != 0 then m & !own else m
  }

  /** Lines 1438-1449: the hotkey table is consulted with the logical
      modifiers minus the key's own bits; while the Alt-Tab menu is shown a
      miss is retried without the Alt bits. */
  function TableLookup(cfg: Config, m: bv8, visible: bool, e: KeyboardEvent, sc: SC, kc: KeyConfig): (r: HotkeyChoice)
    requires ValidConfig(cfg)
    ensures var mods := WithoutOwnBits(m, kc.asModifiersLR);
            var first := SplitHotkeyId(TableEntry(cfg, mods, e.vk, sc));
            r == first
            || (visible && first.id == HOTKEY_ID_INVALID
                && r == SplitHotkeyId(TableEntry(cfg, mods & !(MOD_LALT | MOD_RALT), e.vk, sc)))
  {
    var mods := WithoutOwnBits(m, kc.asModifiersLR);
    var first := SplitHotkeyId(TableEntry(cfg, mods, e.vk, sc));
    if first.id == HOTKEY_ID_INVALID && visible then
      SplitHotkeyId(TableEntry(cfg, mods & !(MOD_LALT | MOD_RALT), e.vk, sc))
    else first
  }

  /** Case 4 (lines 1299-1510). */
  ghost function SuffixAction(cfg: Config, s: State, e: KeyboardEvent, sc: SC, cur: nat, k: KeyRef): (r: Outcome)
    requires Ready(cfg, s, cur)
    ensures Extends(s, r.st)
    ensures e.keyUp ==> KeysUnchanged(s, r.st)
  {
    if s.prefixKey.Some? && !e.keyUp then
      var l := OverrideLookup(cfg, s, k);
      if l.choice.id == HOTKEY_ID_ALT_TAB || l.choice.id == HOTKEY_ID_ALT_TAB_SHIFT then
        AltTabFromPrefix(cfg, l.st, e, sc, cur, k, l.choice.id)
      else Resolve(cfg, l.st, e, sc, cur, k, l.choice)
    else Resolve(cfg, s, e, sc, cur, k, HotkeyChoice(HOTKEY_ID_INVALID, false))
  }

  predicate IsNumpadDigitOrDecimal(vk: VK)
  {
    (VK_NUMPAD0 <= vk <= VK_NUMPAD9) || vk == VK_DECIMAL
  }

  /** Lines 1337-1426: the events a prefix+suffix Alt-Tab hotkey sends: Alt
      down if no Alt is held, the suffix released if it is a Ctrl key, Shift
      down for Shift-Alt-Tab (or, for Alt-Tab, the suffix and any held Shift
      released), any held Ctrl released, then Tab pressed and released, and
      for Shift-Alt-Tab from a numpad key Shift released again at once. */
  function AltTabPrefixKeys(m: bv8, e: KeyboardEvent, sc: SC, shiftTab: bool): (r: seq<SentKey>)
    ensures TabPress in r
    ensures (m & (MOD_LALT | MOD_RALT) == 0) <==> r[0] == Down(VK_MENU)
    ensures IsControl(e.vk) ==> SentKey(KeyUp, e.vk, sc) in r
    ensures !shiftTab && IsShift(e.vk) ==> SentKey(KeyUp, e.vk, sc) in r
    ensures Down(VK_SHIFT) in r <==> shiftTab && m & MOD_LSHIFT == 0 && m & MOD_RSHIFT == 0
    ensures !shiftTab ==> forall x :: x in HeldShiftUp(m) ==> x in r
    ensures forall x :: x in HeldControlUp(m) ==> x in r
    ensures shiftTab && IsNumpadDigitOrDecimal(e.vk) ==> r[|r| - 1] == Up(VK_SHIFT) && r[|r| - 2] == TabPress
    ensures !(shiftTab && IsNumpadDigitOrDecimal(e.vk)) ==> r[|r| - 1] == TabPress
  {
    var altDown := if m & MOD_LALT == 0 && m & MOD_RALT == 0 then [Down(VK_MENU)] else [];
    var middle := AltTabModifierKeys(m, e, sc, shiftTab);
    var tail := if shiftTab && IsNumpadDigitOrDecimal(e.vk) then [TabPress, Up(VK_SHIFT)] else [TabPress];
    var head := altDown + middle;
    var r := head + tail;
    assert |tail| == 2 ==> r[|r| - 1] == tail[1] && r[|r| - 2] == tail[0];
    assert |tail| == 1 ==> r[|r| - 1] == tail[0];
    assert forall x :: x in middle ==> x in head;
    assert Down(VK_SHIFT) in r <==> Down(VK_SHIFT) in middle;
    r
  }

  /** The part of AltTabPrefixKeys between Alt and Tab: a Ctrl suffix
      released, the Shift keys, and any held Ctrl released. */
  function AltTabModifierKeys(m: bv8, e: KeyboardEvent, sc: SC, shiftTab: bool): (r: seq<SentKey>)
    ensures IsControl(e.vk) ==> SentKey(KeyUp, e.vk, sc) in r
    ensures !shiftTab && IsShift(e.vk) ==> SentKey(KeyUp, e.vk, sc) in r
    ensures Down(VK_SHIFT) in r <==> shiftTab && m & MOD_LSHIFT == 0 && m & MOD_RSHIFT == 0
    ensures !shiftTab ==> forall x :: x in HeldShiftUp(m) ==> x in r
    ensures forall x :: x in HeldControlUp(m) ==> x in r
  {
    var ctrlUp := if IsControl(e.vk) then [SentKey(KeyUp, e.vk, sc)] else [];
    var shiftPart := AltTabShiftKeys(m, e, sc, shiftTab);
    var r := ctrlUp + shiftPart + HeldControlUp(m);
    assert forall x :: x in r <==> x in ctrlUp || x in shiftPart || x in HeldControlUp(m);
    r
  }

  /** The Shift part of AltTabPrefixKeys: Shift down for Shift-Alt-Tab when
      none is held; for Alt-Tab the suffix released if it is a Shift key and
      any held Shift released. */
  function AltTabShiftKeys(m: bv8, e: KeyboardEvent, sc: SC, shiftTab: bool): (r: seq<SentKey>)
    ensures Down(VK_SHIFT) in r <==> shiftTab && m & MOD_LSHIFT == 0 && m & MOD_RSHIFT == 0
    ensures !shiftTab && IsShift(e.vk) ==> SentKey(KeyUp, e.vk, sc) in r
    ensures !shiftTab ==> forall x :: x in HeldShiftUp(m) ==> x in r
  {
    if shiftTab then (if m & MOD_LSHIFT == 0 && m & MOD_RSHIFT == 0 then [Down(VK_SHIFT)] else [])
    else (if IsShift(e.vk) then [SentKey(KeyUp, e.vk, sc)] else []) + HeldShiftUp(m)
  }

  /** The release of a logically held Shift key, RShift first. */
  function HeldShiftUp(m: bv8): (r: seq<SentKey>)
    ensures m & MOD_LSHIFT != 0 || m & MOD_RSHIFT != 0 ==> r == [Up(if m & MOD_RSHIFT != 0 then VK_RSHIFT else VK_LSHIFT)]
    ensures m & MOD_LSHIFT == 0 && m & MOD_RSHIFT == 0 ==> r == []
    ensures forall x :: x in r ==> x.kind == KeyUp
  {
    if m & MOD_LSHIFT != 0 || m & MOD_RSHIFT != 0 then [Up(if m & MOD_RSHIFT != 0 then VK_RSHIFT else VK_LSHIFT)] else []
  }

  /** The release of a logically held Ctrl key, RCtrl first. */
  function HeldControlUp(m: bv8): (r: seq<SentKey>)
    ensures m & MOD_LCONTROL != 0 || m & MOD_RCONTROL != 0 ==> r == [Up(if m & MOD_RCONTROL != 0 then VK_RCONTROL else VK_LCONTROL)]
    ensures m & MOD_LCONTROL == 0 && m & MOD_RCONTROL == 0 ==> r == []
    ensures forall x :: x in r ==> x.kind == KeyUp
  {
    if m & MOD_LCONTROL != 0 || m & MOD_RCONTROL != 0 then [Up(if m & MOD_RCONTROL != 0 then VK_RCONTROL else VK_LCONTROL)] else []
  }

  /** Lines 1337-1432: a prefix+suffix Alt-Tab hotkey.  The suffix records
      that its press performed an action, the prefix that it holds Alt (and
      Shift for Shift-Alt-Tab, unless it was already let go), the key is
      logged as a hotkey and suppressed. */
  ghost function AltTabFromPrefix(cfg: Config, s: State, e: KeyboardEvent, sc: SC, cur: nat, k: KeyRef, id: bv16): (r: Outcome)
    requires Ready(cfg, s, cur) && s.prefixKey.Some?
    ensures Extends(s, r.st) && r.disp == Suppress
    ensures r.st.history.items[cur].eventType == 'h'
    ensures s.sent + AltTabPrefixKeys(s.tracker.modLogical, e, sc, id == HOTKEY_ID_ALT_TAB_SHIFT) <= r.st.sent
  {
    var s2 := AltTabPrefixRecords(s, e, k, id);
    var keys := AltTabPrefixKeys(s.tracker.modLogical, e, sc, id == HOTKEY_ID_ALT_TAB_SHIFT);
    var s3 := SetEventType(Send(s2, keys), cur, 'h');
    Suppressed(cfg, s3, e, sc, cur)
  }

  /** The key records a prefix+suffix Alt-Tab hotkey writes: the suffix
      performed an action, the prefix holds Alt and (for Shift-Alt-Tab from
      a key other than a numpad digit) Shift; nothing else changes. */
  function AltTabPrefixRecords(s: State, e: KeyboardEvent, k: KeyRef, id: bv16): (r: State)
    requires WellFormed(s) && s.prefixKey.Some?
    ensures WellFormed(r) && Extends(s, r) && r.prefixKey == s.prefixKey && r.sent == s.sent
    ensures r.history == s.history && r.tracker == s.tracker
    ensures Rec(r, k).downPerformedAction && Rec(r, s.prefixKey.value).itPutAltDown
    ensures Rec(r, s.prefixKey.value).wasJustUsed == Rec(s, s.prefixKey.value).wasJustUsed
    ensures Rec(r, s.prefixKey.value).itPutShiftDown ==
              if id == HOTKEY_ID_ALT_TAB_SHIFT then !IsNumpadDigitOrDecimal(e.vk) else Rec(s, s.prefixKey.value).itPutShiftDown
  {
    var s1 := WithRec(s, k, Rec(s, k).(downPerformedAction := true));
    var p := s1.prefixKey.value;
    var shiftFlag := if id == HOTKEY_ID_ALT_TAB_SHIFT then !IsNumpadDigitOrDecimal(e.vk) else Rec(s1, p).itPutShiftDown;
    var s2 := WithRec(s1, p, Rec(s1, p).(itPutAltDown := true, itPutShiftDown := shiftFlag));
    assert Rec(s1, p).itPutShiftDown == Rec(s, p).itPutShiftDown && Rec(s1, p).wasJustUsed == Rec(s, p).wasJustUsed;
    s2
  }

  /** Lines 1436-1510: the hotkey tables decide when the overrides did not;
      with no hotkey a release keeps its native function only for modifiers
      and neutral lock keys, and a press passes. */
  ghost function Resolve(cfg: Config, s: State, e: KeyboardEvent, sc: SC, cur: nat, k: KeyRef, c: HotkeyChoice): (r: Outcome)
    requires Ready(cfg, s, cur)
    ensures Extends(s, r.st)
    ensures e.keyUp ==> KeysUnchanged(s, r.st)
  {
    var kc := KeyCfg(cfg, k);
    var c1 := if c.id == HOTKEY_ID_INVALID then TableLookup(cfg, s.tracker.modLogical, s.altTabMenuIsVisible, e, sc, kc) else c;
    if c1.id == HOTKEY_ID_INVALID then
      if e.keyUp then NativeOrSuppress(cfg, s, e, sc, cur, kc) else AllowIt(cfg, s, e, sc, cur, false)
    else Fire(cfg, s, e, sc, cur, k, c1)
  }

  // ---------------------------------------------------------------------
  // A hotkey fires (lines 1517-1834)

  /** Lines 1517-1539: with only Win keys (or only Alt keys) logically down,
      a Win/Alt key that is not itself a prefix gets its release disguised. */
  function SetDisguiseFlags(cfg: Config, m: bv8, d: DisguiseNext): (r: DisguiseNext)
    requires ValidConfig(cfg)
    ensures r.lwin <==> (d.lwin || (m & !(MOD_LWIN | MOD_RWIN) == 0 && m & MOD_LWIN != 0
                                    && !cfg.vkKeys[VK_LWIN].usedAsPrefix))
    ensures r.rwin <==> (d.rwin || (m & !(MOD_LWIN | MOD_RWIN) == 0 && m & MOD_RWIN != 0
                                    && !cfg.vkKeys[VK_RWIN].usedAsPrefix))
    ensures r.lalt <==> (d.lalt || (m & !(MOD_LWIN | MOD_RWIN) != 0 && m & !(MOD_LALT | MOD_RALT) == 0
                                    && m & MOD_LALT != 0 && !cfg.vkKeys[VK_LMENU].usedAsPrefix))
    ensures r.ralt <==> (d.ralt || (m & !(MOD_LWIN | MOD_RWIN) != 0 && m & !(MOD_LALT | MOD_RALT) == 0
                                    && m & MOD_RALT != 0 && !cfg.vkKeys[VK_RMENU].usedAsPrefix))
  {
    if m & !(MOD_LWIN | MOD_RWIN) == 0 then
      d.(lwin := d.lwin || (m & MOD_LWIN != 0 && !cfg.vkKeys[VK_LWIN].usedAsPrefix),
         rwin := d.rwin || (m & MOD_RWIN != 0 && !cfg.vkKeys[VK_RWIN].usedAsPrefix))
    else if m & !(MOD_LALT | MOD_RALT) == 0 then
      d.(lalt := d.lalt || (m & MOD_LALT != 0 && !cfg.vkKeys[VK_LMENU].usedAsPrefix),
         ralt := d.ralt || (m & MOD_RALT != 0 && !cfg.vkKeys[VK_RMENU].usedAsPrefix))
    else d
  }

  /** The Alt key logically held, if any, LAlt first. */
  function WhichAltDown(m: bv8): VK
  {
    if m & MOD_LALT != 0 then VK_LMENU else if m & MOD_RALT != 0 then VK_RMENU else 0
  }

  /** The Shift key the menu display lets go of: a held one (LShift first),
      else the key itself when it is a Shift key going down; 0 for none. */
  function ShiftToRelease(m: bv8, e: KeyboardEvent): (r: VK)
    ensures r != 0 ==> IsShift(r)
  {
    if m & MOD_LSHIFT != 0 then VK_LSHIFT else if m & MOD_RSHIFT != 0 then VK_RSHIFT
    else if !e.keyUp && IsShift(e.vk) then e.vk else 0
  }

  /** The same for Ctrl. */
  function ControlToRelease(m: bv8, e: KeyboardEvent): (r: VK)
    ensures r != 0 ==> IsControl(r)
  {
    if m & MOD_LCONTROL != 0 then VK_LCONTROL else if m & MOD_RCONTROL != 0 then VK_RCONTROL
    else if !e.keyUp && IsControl(e.vk) then e.vk else 0
  }

  /** Lines 1556-1565: the menu is dismissed by releasing Alt (and the key
      itself when it is a modifier other than Win). */
  function DismissMenuKeys(m: bv8, e: KeyboardEvent, isModifier: bool): (r: seq<SentKey>)
    ensures 1 <= |r| <= 2 && r[0].kind == KeyUp && IsAlt(r[0].vk)
    ensures forall i :: 0 <= i < |r| ==> r[i].kind == KeyUp
  {
    var alt: VK := if WhichAltDown(m) != 0 then WhichAltDown(m) else VK_MENU;
    [Up(alt)] + (if isModifier && e.vk != VK_LWIN && e.vk != VK_RWIN then [Up(e.vk)] else [])
  }

  /** Lines 1567-1665: the menu is shown by letting go of Shift and Ctrl,
      holding Alt and pressing Tab without releasing it; a Shift let go is
      put back down afterwards unless the key itself is a Shift key. */
  function ShowMenuKeys(m: bv8, e: KeyboardEvent): (r: seq<SentKey>)
    ensures Down(VK_TAB) in r && Up(VK_TAB) !in r && TabPress !in r
    ensures ShiftToRelease(m, e) != 0 ==> r[0] == Up(ShiftToRelease(m, e))
    ensures ControlToRelease(m, e) != 0 ==> Up(ControlToRelease(m, e)) in r
    ensures forall x :: x in r && x.kind == KeyUp ==> x == Up(ShiftToRelease(m, e)) || x == Up(ControlToRelease(m, e))
    ensures Down(VK_MENU) in r <==> if IsAlt(e.vk) then e.keyUp else WhichAltDown(m) == 0
    ensures r[|r| - 1] == if ShiftToRelease(m, e) != 0 && !IsShift(e.vk) then Down(ShiftToRelease(m, e)) else Down(VK_TAB)
  {
    var vkIsAlt := IsAlt(e.vk);
    var vkIsShift := IsShift(e.vk);
    var whichShiftDown := ShiftToRelease(m, e);
    var whichControlDown := ControlToRelease(m, e);
    var altDown: VK := if vkIsAlt then (if e.keyUp then 0 else e.vk) else WhichAltDown(m);
    var shiftUp := if whichShiftDown != 0 then [Up(whichShiftDown)] else [];
    var controlUp := if whichControlDown != 0 then [Up(whichControlDown)] else [];
    var altPart := if altDown == 0 then [Down(VK_MENU)] else [];
    var before := shiftUp + controlUp + altPart;
    var after := if whichShiftDown != 0 && !vkIsShift then [Down(whichShiftDown)] else [];
    var r := before + [Down(VK_TAB)] + after;
    assert r[|before|] == Down(VK_TAB);
    assert forall x :: x in r <==> x in shiftUp || x in controlUp || x in altPart || x == Down(VK_TAB) || x in after;
    assert Down(VK_MENU) in r <==> altPart != [];
    r
  }

  /** Lines 1674-1716: with the menu shown, move through it: let go of a
      Ctrl/Shift suffix being pressed, hold Alt, and press Tab, inside a
      Shift press for Shift-Alt-Tab when no Shift is held. */
  function AltTabStepKeys(m: bv8, e: KeyboardEvent, shiftTab: bool): (r: seq<SentKey>)
    ensures TabPress in r
    ensures shiftTab && m & (MOD_LSHIFT | MOD_RSHIFT) == 0 ==>
              |r| >= 3 && r[|r| - 3..] == [Down(VK_SHIFT), TabPress, Up(VK_SHIFT)]
    ensures !(shiftTab && m & (MOD_LSHIFT | MOD_RSHIFT) == 0) ==> r[|r| - 1] == TabPress
    ensures r[0] == Up(e.vk) <==> !e.keyUp && (IsControl(e.vk) || IsShift(e.vk))
    ensures Down(VK_MENU) in r <==> WhichAltDown(m) == 0 || (e.keyUp && IsAlt(e.vk))
  {
    var head := AltTabStepHead(m, e);
    var shiftPutDown := shiftTab && m & (MOD_LSHIFT | MOD_RSHIFT) == 0;
    var tail := if shiftPutDown then [Down(VK_SHIFT), TabPress, Up(VK_SHIFT)] else [TabPress];
    var r := head + tail;
    assert r[|r| - 1] == tail[|tail| - 1];
    assert |tail| == 3 ==> r[|r| - 3] == tail[0] && r[|r| - 2] == tail[1] && r[|r| - 3..] == tail;
    assert r[0] == if head != [] then head[0] else tail[0];
    assert Down(VK_MENU) in r <==> Down(VK_MENU) in head by {
      assert Down(VK_MENU) !in tail;
      assert forall x :: x in r <==> x in head || x in tail;
    }
    r
  }

  /** The part of AltTabStepKeys before Tab: the Ctrl/Shift suffix let go,
      then Alt pressed when none is held or the key is an Alt release. */
  function AltTabStepHead(m: bv8, e: KeyboardEvent): (r: seq<SentKey>)
    ensures |r| > 0 && r[0] == Up(e.vk) <==> !e.keyUp && (IsControl(e.vk) || IsShift(e.vk))
    ensures Down(VK_MENU) in r <==> WhichAltDown(m) == 0 || (e.keyUp && IsAlt(e.vk))
  {
    var suffixUp := if !e.keyUp && (IsControl(e.vk) || IsShift(e.vk)) then [Up(e.vk)] else [];
    var altDown := if !(m & MOD_LALT != 0 || m & MOD_RALT != 0) || (e.keyUp && IsAlt(e.vk)) then [Down(VK_MENU)] else [];
    var r := suffixUp + altDown;
    assert Down(VK_MENU) in r <==> altDown != [] by {
      assert Down(VK_MENU) !in suffixUp;
      assert forall x :: x in r <==> x in suffixUp || x in altDown;
    }
    assert WhichAltDown(m) == 0 <==> !(m & MOD_LALT != 0 || m & MOD_RALT != 0);
    r
  }

  /** A switch arm's effect: whether it let the key through (its `return
      AllowKeyToGoToSystem`) instead of breaking, the events it sent, the
      new menu flag and the hotkey ids it posted. */
  datatype Arm = Arm(allowNow: bool, keys: seq<SentKey>, menuVisible: bool, post: seq<bv16>)

  /** The five ids the hook handles itself instead of posting. */
  predicate IsAltTabId(id: bv16)
  {
    id == HOTKEY_ID_ALT_TAB_MENU_DISMISS || id == HOTKEY_ID_ALT_TAB_MENU || id == HOTKEY_ID_ALT_TAB_AND_MENU
    || id == HOTKEY_ID_ALT_TAB || id == HOTKEY_ID_ALT_TAB_SHIFT
  }

  /** Lines 1541-1752: the special Alt-Tab ids act here (the menu cases fall
      through into the Alt-Tab case when the menu is already shown); any
      other id is posted to the main window. */
  function HotkeySwitch(m: bv8, visible: bool, e: KeyboardEvent, isModifier: bool, id: bv16): (r: Arm)
    ensures !IsAltTabId(id) ==> r == Arm(false, [], visible, [id])
    ensures IsAltTabId(id) ==> r.post == []
    ensures r.allowNow <==> !visible && (id == HOTKEY_ID_ALT_TAB_MENU_DISMISS || id == HOTKEY_ID_ALT_TAB
                                         || id == HOTKEY_ID_ALT_TAB_SHIFT)
    ensures r.allowNow ==> r.keys == [] && r.menuVisible == visible
    ensures !visible && (id == HOTKEY_ID_ALT_TAB_MENU || id == HOTKEY_ID_ALT_TAB_AND_MENU) ==>
              r.menuVisible && r.keys == ShowMenuKeys(m, e)
    ensures visible && (id == HOTKEY_ID_ALT_TAB_MENU || id == HOTKEY_ID_ALT_TAB_MENU_DISMISS) ==>
              !r.menuVisible && r.keys == DismissMenuKeys(m, e, isModifier)
    ensures visible && (id == HOTKEY_ID_ALT_TAB_AND_MENU || id == HOTKEY_ID_ALT_TAB || id == HOTKEY_ID_ALT_TAB_SHIFT) ==>
              r.menuVisible && r.keys == AltTabStepKeys(m, e, id == HOTKEY_ID_ALT_TAB_SHIFT)
  {
    if id == HOTKEY_ID_ALT_TAB_MENU_DISMISS && !visible then Arm(true, [], visible, [])
    else if id == HOTKEY_ID_ALT_TAB_MENU_DISMISS || id == HOTKEY_ID_ALT_TAB_MENU || id == HOTKEY_ID_ALT_TAB_AND_MENU then
      if visible then
        if id != HOTKEY_ID_ALT_TAB_AND_MENU then Arm(false, DismissMenuKeys(m, e, isModifier), false, [])
        else Arm(false, AltTabStepKeys(m, e, false), visible, [])
      else Arm(false, ShowMenuKeys(m, e), true, [])
    else if id == HOTKEY_ID_ALT_TAB || id == HOTKEY_ID_ALT_TAB_SHIFT then
      if !visible then Arm(true, [], visible, [])
      else Arm(false, AltTabStepKeys(m, e, id == HOTKEY_ID_ALT_TAB_SHIFT), visible, [])
    else Arm(false, [], visible, [id])
  }

  ghost function Fire(cfg: Config, s: State, e: KeyboardEvent, sc: SC, cur: nat, k: KeyRef, c: HotkeyChoice): (r: Outcome)
    requires Ready(cfg, s, cur)
    ensures Extends(s, r.st)
    ensures e.keyUp ==> KeysUnchanged(s, r.st)
  {
    var m := s.tracker.modLogical;
    var s1 := s.(disguise := SetDisguiseFlags(cfg, m, s.disguise));
    var a := HotkeySwitch(m, s.altTabMenuIsVisible, e, KeyCfg(cfg, k).asModifiersLR != 0, c.id);
    var s2 := s1.(sent := s1.sent + a.keys, posted := s1.posted + a.post, altTabMenuIsVisible := a.menuVisible);
    if a.allowNow then AllowIt(cfg, s2, e, sc, cur, false)
    else Finish(cfg, s2, e, sc, cur, k, c.noSuppress)
  }

  /** Lines 1754-1834: after a hotkey: mark the history entry, restore a
      neutral lock key, disguise a modifier's release, and on a press record
      that it performed an action (suppressing it unless the hotkey is
      pass-through). */
  ghost function Finish(cfg: Config, s: State, e: KeyboardEvent, sc: SC, cur: nat, k: KeyRef, noSuppress: bool): (r: Outcome)
    requires Ready(cfg, s, cur)
    ensures Extends(s, r.st)
    ensures r.st.history.items[cur].eventType == 'h'
    ensures !e.keyUp ==> r.disp == Suppress && Rec(r.st, k).downPerformedAction
    ensures !e.keyUp && s.prefixKey.Some? ==> Rec(r.st, s.prefixKey.value).wasJustUsed == AsPrefixForHotkey
    ensures !e.keyUp ==> r.st.prefixKey == s.prefixKey
    ensures e.keyUp ==> KeysUnchanged(s, r.st)
  {
    var s1 := SetEventType(s, cur, 'h');
    var kc := KeyCfg(cfg, k);
    if kc.forceToggle == Some(Neutral) && kc.usedAsPrefix && e.keyUp then
      Suppressed(cfg, Send(s1, ToggleRestore(e, sc)), e, sc, cur)
    else if kc.asModifiersLR != 0 && e.keyUp then AllowIt(cfg, s1, e, sc, cur, true)
    else if e.keyUp then
      if noSuppress then AllowIt(cfg, Send(s1, [SentKey(KeyDown, e.vk, sc)]), e, sc, cur, false)
      else Suppressed(cfg, s1, e, sc, cur)
    else FinishPress(cfg, s1, e, sc, cur, k, noSuppress)
  }

  /** Lines 1810-1834, the press half of Finish: the key records that it
      performed an action, a held prefix that it fired a hotkey, and the
      event is suppressed (sent on first when the hotkey is pass-through). */
  ghost function FinishPress(cfg: Config, s: State, e: KeyboardEvent, sc: SC, cur: nat, k: KeyRef, noSuppress: bool): (r: Outcome)
    requires Ready(cfg, s, cur)
    ensures Extends(s, r.st) && r.disp == Suppress && r.st.prefixKey == s.prefixKey
    ensures s.history.items[cur].eventType != ' ' ==>
              r.st.history.items[cur].eventType == s.history.items[cur].eventType
    ensures Rec(r.st, k).downPerformedAction
    ensures s.prefixKey.Some? ==> Rec(r.st, s.prefixKey.value).wasJustUsed == AsPrefixForHotkey
  {
    var s2 := WithRec(s, k, Rec(s, k).(downPerformedAction := true));
    var s3 := if s2.prefixKey.Some? then SetJustUsed(s2, s2.prefixKey.value, AsPrefixForHotkey) else s2;
    var s4 := if noSuppress then Send(s3, [SentKey(KeyDownAndUp, e.vk, sc)]) else s3;
    Suppressed(cfg, s4, e, sc, cur)
  }

  // ---------------------------------------------------------------------
  // LowLevelKeybdProc (lines 822-1834)

  /** Lines 919-981: what every event does before any decision: log it,
      track the numpad, the menu and a non-modifier's physical state. */
  ghost function Bookkeeping(cfg: Config, s: State, e: KeyboardEvent, sc: SC): (r: State)
    requires ValidConfig(cfg) && WellFormed(s)
    ensures WellFormed(r) && |r.history.items| == |s.history.items|
    ensures r.history == RecordHistory(s.history, e, sc)
    ensures KeysUnchanged(s, r) && r.sent == s.sent && r.posted == s.posted && r.disguise == s.disguise
    ensures r.tracker.modLogical == s.tracker.modLogical && r.tracker.modPhysical == s.tracker.modPhysical
    ensures r.tracker.prior == s.tracker.prior && r.tracker.snap == s.tracker.snap
    ensures r.tracker.padState == TrackNumpad(s.tracker, e, sc).padState
    ensures r.altTabMenuIsVisible == NoteAltTabMenu(s.altTabMenuIsVisible, s.tracker.modLogical, e)
    ensures forall i :: 0 <= i < 256 && i != e.vk ==> r.tracker.physKey[i] == s.tracker.physKey[i]
  {
    var h := RecordHistory(s.history, e, sc);
    var t1 := TrackNumpad(s.tracker, e, sc);
    var visible := NoteAltTabMenu(s.altTabMenuIsVisible, t1.modLogical, e);
    var t2 := TrackPhysicalKey(cfg, t1, e);
    s.(history := h, tracker := t2, altTabMenuIsVisible := visible)
  }

  ghost function Step(cfg: Config, s: State, e: KeyboardEvent): (r: Outcome)
    requires ValidConfig(cfg) && WellFormed(s)
    ensures WellFormed(r.st) && |r.st.history.items| == |s.history.items|
    ensures !e.hcAction ==> r == Outcome(s, Allow)
    ensures e.hcAction ==> r.st.history.next == (s.history.next + 1) % |s.history.items|
  {
    if !e.hcAction then Outcome(s, Allow)
    else
      var sc := NormalizeScanCode(e.vk, e.scanCode, e.extended, cfg.vkToSc);
      var cur := s.history.next;
      var s1 := Bookkeeping(cfg, s, e, sc);
      assert Ready(cfg, s1, cur) && s1.history.next == (cur + 1) % |s.history.items|;
      if e.ignore then AllowIt(cfg, s1, e, sc, cur, false)
      else if DisguiseUpPending(s1.disguise, e) then
        var s2 := Send(s1.(disguise := ClearDisguise(s1.disguise, e.vk)),
                       [Down(VK_SHIFT), SentKey(KeyUp, e.vk, sc), Up(VK_SHIFT)]);
        Suppressed(cfg, s2, e, sc, cur)
      else Dispatch(cfg, s1, e, sc, cur)
  }
}
