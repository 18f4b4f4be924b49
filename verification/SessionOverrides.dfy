// Quick settings changed for one session: the values in force, the persisted
// values they hide, and how the two are laid over a configuration.
module SessionOverrides {
  import opened Bytes

  const FIELD_COUNT: nat := 7
  type field = f: nat | f < 7

  const BREW_BY_WEIGHT: field := 0
  const NO_SCALE_BBW_MODE: field := 1
  const AUTO_TO_MANUAL_GUARD: field := 2
  const SLOW_EXTRACTION_GUARD: field := 3
  const FAST_EXTRACTION_GUARD: field := 4
  const AVOID_ACCIDENTAL_TOUCH: field := 5
  const CUP_PROTECTION: field := 6

  const REQUIRE_SCALE: u8 := 2

  // `device` and `recipe` stand for every other device and preset setting.
  datatype RuntimeConfig = RuntimeConfig(
    timerOnly: bool, noScaleBbwMode: u8, scaleLossEnabled: bool, slowSideEnabled: bool, fastSideEnabled: bool,
    avoidAccidentalTouchEnabled: bool, cupProtectionEnabled: bool, device: int, recipe: int)

  datatype ShotPreset = ShotPreset(
    id: u8, brewByWeight: bool, slowSideEnabled: bool, fastSideEnabled: bool, recipe: int)

  // ----- the packed mode byte: mode in bits 0 and 1, options in bits 6 and 7 -----

  function ModeOf(stored: u8): u8 {
    stored % 4
  }

  predicate AllowsRinse(stored: u8) {
    stored / 128 == 1
  }

  predicate Retares(stored: u8) {
    stored / 64 % 2 == 1
  }

  function PackMode(mode: u8, allowsRinse: bool, retares: bool): u8 {
    mode % 4 + (if retares then 64 else 0) + (if allowsRinse then 128 else 0)
  }

  // No reserved bit is set, and the mode is one of the three.
  predicate ValidMode(stored: u8) {
    stored / 4 % 16 == 0 && ModeOf(stored) <= REQUIRE_SCALE
  }

  lemma PackedParts(stored: u8, mode: u8)
    requires ValidMode(stored) && mode <= REQUIRE_SCALE
    ensures var packed := PackMode(mode, AllowsRinse(stored), Retares(stored));
            && ModeOf(packed) == mode && ValidMode(packed)
            && AllowsRinse(packed) == AllowsRinse(stored) && Retares(packed) == Retares(stored)
  {
  }

  // Packing sets no reserved bit and keeps both options, whatever value is given.
  lemma PackingFillsItsBits(mode: u8, allowsRinse: bool, retares: bool)
    ensures var packed := PackMode(mode, allowsRinse, retares);
            && packed / 4 % 16 == 0 && AllowsRinse(packed) == allowsRinse && Retares(packed) == retares
            && (packed >= 128 <==> allowsRinse) && (packed % 128 >= 64 <==> retares)
            && (mode < 4 ==> ModeOf(packed) == mode)
  {
  }

  lemma PartsDetermineMode(a: u8, b: u8)
    requires ValidMode(a) && ValidMode(b)
    requires ModeOf(a) == ModeOf(b) && AllowsRinse(a) == AllowsRinse(b) && Retares(a) == Retares(b)
    ensures a == b
  {
  }

  // Setting the mode again clears the reserved bits, so it restores exactly the
  // bytes that have none.
  lemma RepackingIsExact(stored: u8)
    ensures PackMode(ModeOf(stored), AllowsRinse(stored), Retares(stored)) == stored <==> stored / 4 % 16 == 0
  {
  }

  // ----- one setting -----

  function Flag(b: bool): u8 {
    if b then 1 else 0
  }

  function QuickValue(c: RuntimeConfig, f: field): u8 {
    if f == BREW_BY_WEIGHT then Flag(!c.timerOnly)
    else if f == NO_SCALE_BBW_MODE then ModeOf(c.noScaleBbwMode)
    else if f == AUTO_TO_MANUAL_GUARD then Flag(c.scaleLossEnabled)
    else if f == SLOW_EXTRACTION_GUARD then Flag(c.slowSideEnabled)
    else if f == FAST_EXTRACTION_GUARD then Flag(c.fastSideEnabled)
    else if f == AVOID_ACCIDENTAL_TOUCH then Flag(c.avoidAccidentalTouchEnabled)
    else Flag(c.cupProtectionEnabled)
  }

  function WithQuickValue(c: RuntimeConfig, f: field, value: u8): RuntimeConfig {
    if f == BREW_BY_WEIGHT then c.(timerOnly := value == 0)
    else if f == NO_SCALE_BBW_MODE then
      c.(noScaleBbwMode := PackMode(value, AllowsRinse(c.noScaleBbwMode), Retares(c.noScaleBbwMode)))
    else if f == AUTO_TO_MANUAL_GUARD then c.(scaleLossEnabled := value != 0)
    else if f == SLOW_EXTRACTION_GUARD then c.(slowSideEnabled := value != 0)
    else if f == FAST_EXTRACTION_GUARD then c.(fastSideEnabled := value != 0)
    else if f == AVOID_ACCIDENTAL_TOUCH then c.(avoidAccidentalTouchEnabled := value != 0)
    else c.(cupProtectionEnabled := value != 0)
  }

  // What the quick setting command accepts.
  predicate ValidValue(f: field, value: u8) {
    value <= if f == NO_SCALE_BBW_MODE then REQUIRE_SCALE else 1
  }

  predicate ValidConfig(c: RuntimeConfig) {
    ValidMode(c.noScaleBbwMode)
  }

  // The same in everything quick settings do not reach.
  predicate SameElsewhere(c: RuntimeConfig, d: RuntimeConfig) {
    && c.device == d.device && c.recipe == d.recipe
    && AllowsRinse(c.noScaleBbwMode) == AllowsRinse(d.noScaleBbwMode)
    && Retares(c.noScaleBbwMode) == Retares(d.noScaleBbwMode)
  }

  lemma StaysElsewhere(c: RuntimeConfig, f: field, value: u8)
    requires ValidConfig(c) && ValidValue(f, value)
    ensures ValidConfig(WithQuickValue(c, f, value)) && SameElsewhere(c, WithQuickValue(c, f, value))
  {
    hide PackMode, AllowsRinse, Retares, ModeOf, ValidMode;
    if f == NO_SCALE_BBW_MODE {
      PackedParts(c.noScaleBbwMode, value);
    }
  }

  lemma SetsItsValue(c: RuntimeConfig, f: field, value: u8)
    requires ValidConfig(c) && ValidValue(f, value)
    ensures QuickValue(WithQuickValue(c, f, value), f) == value
  {
    hide PackMode, AllowsRinse, Retares, ModeOf, ValidMode;
    if f == NO_SCALE_BBW_MODE {
      PackedParts(c.noScaleBbwMode, value);
    }
  }

  lemma LeavesOtherValue(c: RuntimeConfig, f: field, value: u8, g: field)
    requires ValidConfig(c) && f != g
    ensures QuickValue(WithQuickValue(c, f, value), g) == QuickValue(c, g)
  {
    hide PackMode, AllowsRinse, Retares, ModeOf, ValidConfig;
  }

  lemma SetOneValue(c: RuntimeConfig, f: field, value: u8)
    requires ValidConfig(c) && ValidValue(f, value)
    ensures var d := WithQuickValue(c, f, value);
            && ValidConfig(d) && SameElsewhere(c, d)
            && forall g: field :: QuickValue(d, g) == if g == f then value else QuickValue(c, g)
  {
    hide WithQuickValue, QuickValue, ValidConfig, ValidValue, SameElsewhere;
    StaysElsewhere(c, f, value);
    SetsItsValue(c, f, value);
    forall g: field | g != f
      ensures QuickValue(WithQuickValue(c, f, value), g) == QuickValue(c, g)
    {
      LeavesOtherValue(c, f, value, g);
    }
  }

  lemma QuickValuesAreValid(c: RuntimeConfig, f: field)
    requires ValidConfig(c)
    ensures ValidValue(f, QuickValue(c, f))
  {
  }

  // Quick values and the rest determine a valid configuration.
  lemma SameQuickValuesSameConfig(c: RuntimeConfig, d: RuntimeConfig)
    requires ValidConfig(c) && ValidConfig(d) && SameElsewhere(c, d)
    requires forall g: field :: QuickValue(c, g) == QuickValue(d, g)
    ensures c == d
  {
    hide PackMode, AllowsRinse, Retares, ModeOf, ValidMode;
    assert QuickValue(c, BREW_BY_WEIGHT) == QuickValue(d, BREW_BY_WEIGHT);
    assert QuickValue(c, NO_SCALE_BBW_MODE) == QuickValue(d, NO_SCALE_BBW_MODE);
    assert QuickValue(c, AUTO_TO_MANUAL_GUARD) == QuickValue(d, AUTO_TO_MANUAL_GUARD);
    assert QuickValue(c, SLOW_EXTRACTION_GUARD) == QuickValue(d, SLOW_EXTRACTION_GUARD);
    assert QuickValue(c, FAST_EXTRACTION_GUARD) == QuickValue(d, FAST_EXTRACTION_GUARD);
    assert QuickValue(c, AVOID_ACCIDENTAL_TOUCH) == QuickValue(d, AVOID_ACCIDENTAL_TOUCH);
    assert QuickValue(c, CUP_PROTECTION) == QuickValue(d, CUP_PROTECTION);
    PartsDetermineMode(c.noScaleBbwMode, d.noScaleBbwMode);
  }

  // ----- a session -----

  // One mask bit, one value in force and one hidden persisted value per field.
  datatype Session = Session(mask: seq<bool>, presetId: u8, value: seq<u8>, saved: seq<u8>)

  predicate WellFormed(s: Session) {
    |s.mask| == |s.value| == |s.saved| == FIELD_COUNT
  }

  const NOTHING := [false, false, false, false, false, false, false]
  const ZEROS: seq<u8> := [0, 0, 0, 0, 0, 0, 0]
  const NO_SESSION := Session(NOTHING, 0, ZEROS, ZEROS)

  function Applied(s: Session, c: RuntimeConfig, f: field, saved: bool): RuntimeConfig
    requires WellFormed(s)
  {
    if !s.mask[f] then c else WithQuickValue(c, f, if saved then s.saved[f] else s.value[f])
  }

  // The first n fields' overrides, or what they hide, laid over a configuration.
  function OverlaidTo(s: Session, c: RuntimeConfig, saved: bool, n: nat): RuntimeConfig
    requires WellFormed(s) && n <= FIELD_COUNT
  {
    if n == 0 then c else Applied(s, OverlaidTo(s, c, saved, n - 1), n - 1, saved)
  }

  function Overlaid(s: Session, c: RuntimeConfig, saved: bool): RuntimeConfig
    requires WellFormed(s)
  {
    OverlaidTo(s, c, saved, FIELD_COUNT)
  }

  predicate ValidSession(s: Session) {
    WellFormed(s) && forall f: field :: s.mask[f] ==> ValidValue(f, s.value[f]) && ValidValue(f, s.saved[f])
  }

  function QuickAfterOverlay(s: Session, c: RuntimeConfig, saved: bool, f: field): u8
    requires WellFormed(s)
  {
    if !s.mask[f] then QuickValue(c, f) else if saved then s.saved[f] else s.value[f]
  }

  lemma {:induction false} OverlayTouchesMasked(s: Session, c: RuntimeConfig, saved: bool, n: nat)
    requires ValidSession(s) && ValidConfig(c) && n <= FIELD_COUNT
    ensures var d := OverlaidTo(s, c, saved, n);
            && ValidConfig(d) && SameElsewhere(c, d)
            && forall f: field :: QuickValue(d, f) == if f < n then QuickAfterOverlay(s, c, saved, f) else QuickValue(c, f)
  {
    hide QuickValue, WithQuickValue, ValidConfig, ValidValue, AllowsRinse, Retares;
    if n > 0 {
      OverlayTouchesMasked(s, c, saved, n - 1);
      if s.mask[n - 1] {
        SetOneValue(OverlaidTo(s, c, saved, n - 1), n - 1, if saved then s.saved[n - 1] else s.value[n - 1]);
      }
    }
  }

  // A configuration is an overlay exactly if it has the overlay's quick values
  // and is the same elsewhere.
  lemma OverlayIs(s: Session, c: RuntimeConfig, saved: bool, d: RuntimeConfig)
    requires ValidSession(s) && ValidConfig(c) && ValidConfig(d)
    ensures d == Overlaid(s, c, saved)
       <==> SameElsewhere(c, d) && forall f: field :: QuickValue(d, f) == QuickAfterOverlay(s, c, saved, f)
  {
    hide QuickValue, ValidConfig, AllowsRinse, Retares, OverlaidTo, QuickAfterOverlay;
    OverlayTouchesMasked(s, c, saved, FIELD_COUNT);
    if SameElsewhere(c, d) && forall f: field :: QuickValue(d, f) == QuickAfterOverlay(s, c, saved, f) {
      SameQuickValuesSameConfig(d, Overlaid(s, c, saved));
    }
  }

  // ----- changes -----

  datatype Changed = Changed(session: Session, config: RuntimeConfig)

  // A session value on the configuration in force; the saved value drops the
  // override.
  function SetSession(s: Session, activeId: u8, effective: RuntimeConfig, f: field, value: u8): Changed
    requires WellFormed(s)
  {
    var hidden := if s.mask[f] then s.saved[f] else QuickValue(effective, f);
    Changed(Session(s.mask[f := hidden != value], if s.mask == NOTHING then activeId else s.presetId,
                    s.value[f := value], s.saved[f := hidden]),
            WithQuickValue(effective, f, value))
  }

  predicate FromPreset(f: field) {
    f == BREW_BY_WEIGHT || f == SLOW_EXTRACTION_GUARD || f == FAST_EXTRACTION_GUARD
  }

  function PresetQuickValue(p: ShotPreset, f: field): u8 {
    if f == BREW_BY_WEIGHT then Flag(p.brewByWeight)
    else if f == SLOW_EXTRACTION_GUARD then Flag(p.slowSideEnabled) else Flag(p.fastSideEnabled)
  }

  datatype Incoming = NoEdit | Edit(config: RuntimeConfig)

  // A persisted change replaced the value the override hides.
  predicate Replaced(s: Session, active: ShotPreset, incoming: Incoming, f: field)
    requires WellFormed(s)
  {
    || active.id != s.presetId
    || (if FromPreset(f) then PresetQuickValue(active, f) != s.saved[f]
        else incoming.Edit? && QuickValue(incoming.config, f) != s.saved[f])
  }

  // The mask and configuration after the first n fields.
  function ReconciledTo(s: Session, active: ShotPreset, incoming: Incoming, composed: RuntimeConfig, n: nat): (r: Changed)
    requires WellFormed(s) && n <= FIELD_COUNT
    ensures r.session.(mask := s.mask) == s && |r.session.mask| == FIELD_COUNT
    ensures forall f: field :: f >= n ==> r.session.mask[f] == s.mask[f]
  {
    if n == 0 then Changed(s, composed)
    else
      var before := ReconciledTo(s, active, incoming, composed, n - 1);
      var f := n - 1;
      if !s.mask[f] then before
      else
        Changed(if Replaced(s, active, incoming, f)
                then before.session.(mask := before.session.mask[f := false]) else before.session,
                if active.id != s.presetId && !FromPreset(f)
                then WithQuickValue(before.config, f, s.saved[f]) else before.config)
  }

  function Reconciled(s: Session, active: ShotPreset, incoming: Incoming, composed: RuntimeConfig): (r: Changed)
    requires WellFormed(s)
    ensures WellFormed(r.session)
  {
    var r := ReconciledTo(s, active, incoming, composed, FIELD_COUNT);
    Changed(r.session, Overlaid(r.session, r.config, false))
  }

  // The active preset's recipe in a configuration.
  function Composed(c: RuntimeConfig, p: ShotPreset): RuntimeConfig {
    c.(timerOnly := !p.brewByWeight, slowSideEnabled := p.slowSideEnabled, fastSideEnabled := p.fastSideEnabled,
       recipe := p.recipe)
  }
}
