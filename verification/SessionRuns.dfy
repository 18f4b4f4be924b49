// Session overrides never reach what is persisted, over any run of session
// changes, settings edits and preset changes.
module SessionRuns {
  import opened Bytes
  import opened SessionOverrides

  // `persisted` is what flash would hold had no quick setting ever been touched:
  // only edits and presets change it.
  datatype Live = Live(session: Session, effective: RuntimeConfig, persisted: RuntimeConfig, active: ShotPreset)

  datatype Step =
    | Change(f: field, value: u8)
    | Revert
    | EditSettings(incoming: RuntimeConfig)
    | OtherDeviceChange(device: int)
    | ActivatePreset(preset: ShotPreset)

  // A commit reconciles the session with what was composed.
  function Committed(s: Session, composed: RuntimeConfig, persisted: RuntimeConfig, active: ShotPreset,
                     incoming: Incoming): (l: Live)
    requires WellFormed(s)
    ensures WellFormed(l.session)
  {
    var r := Reconciled(s, active, incoming, composed);
    Live(r.session, r.config, persisted, active)
  }

  function Next(l: Live, step: Step): Live
    requires WellFormed(l.session)
  {
    match step
    case Change(f, value) =>
      if !ValidValue(f, value) || QuickValue(l.effective, f) == value then l
      else
        var changed := SetSession(l.session, l.active.id, l.effective, f, value);
        Committed(changed.session, changed.config, l.persisted, l.active, NoEdit)
    case Revert =>
      if l.session.mask == NOTHING then l
      else
        Committed(l.session.(mask := NOTHING), Overlaid(l.session, l.effective, true), l.persisted, l.active, NoEdit)
    case EditSettings(incoming) =>
      var composed := Composed(incoming, l.active);
      Committed(l.session, composed, composed, l.active, Edit(incoming))
    case OtherDeviceChange(device) =>
      Committed(l.session, Composed(l.effective.(device := device), l.active), l.persisted.(device := device), l.active,
                NoEdit)
    case ActivatePreset(preset) =>
      Committed(l.session, Composed(l.effective, preset), Composed(l.persisted, preset), preset, NoEdit)
  }

  // Overridden fields hide the persisted value and hold the effective one; the
  // others agree.
  ghost predicate Linked(s: Session, effective: RuntimeConfig, persisted: RuntimeConfig) {
    && ValidSession(s) && ValidConfig(effective) && ValidConfig(persisted) && SameElsewhere(effective, persisted)
    && forall f: field ::
         if s.mask[f] then s.saved[f] == QuickValue(persisted, f) && s.value[f] == QuickValue(effective, f)
         else QuickValue(effective, f) == QuickValue(persisted, f)
  }

  // The persisted configuration carries the active preset's recipe.
  ghost predicate Carries(persisted: RuntimeConfig, active: ShotPreset) {
    Composed(persisted, active) == persisted
  }

  ghost predicate Inv(l: Live)
    ensures Inv(l) ==> WellFormed(l.session)
  {
    && Linked(l.session, l.effective, l.persisted) && Carries(l.persisted, l.active)
    && (l.session.mask != NOTHING ==> l.session.presetId == l.active.id)
  }

  lemma CarriedValues(persisted: RuntimeConfig, active: ShotPreset, f: field)
    requires Carries(persisted, active) && FromPreset(f)
    ensures QuickValue(persisted, f) == PresetQuickValue(active, f)
  {
  }

  lemma ComposedValues(c: RuntimeConfig, p: ShotPreset, f: field)
    ensures QuickValue(Composed(c, p), f) == if FromPreset(f) then PresetQuickValue(p, f) else QuickValue(c, f)
    ensures Carries(Composed(c, p), p)
  {
  }

  // What a commit needs of its composed configuration.
  ghost predicate Ready(s: Session, composed: RuntimeConfig, persisted: RuntimeConfig, active: ShotPreset,
                        incoming: Incoming)
  {
    && ValidSession(s) && ValidConfig(composed) && ValidConfig(persisted) && SameElsewhere(composed, persisted)
    && Carries(persisted, active) && (incoming.Edit? && s.mask != NOTHING ==> active.id == s.presetId)
    && forall f: field ::
         var p := QuickValue(persisted, f);
         if !s.mask[f] then QuickValue(composed, f) == p
         else if FromPreset(f) then Replaced(s, active, incoming, f) ==> QuickValue(composed, f) == p
         else if incoming.Edit? then QuickValue(composed, f) == p && QuickValue(incoming.config, f) == p
         else s.saved[f] == p
  }

  // The mask and configuration after reconciling, field by field.
  lemma {:induction false} ReconciledFields(s: Session, active: ShotPreset, incoming: Incoming, composed: RuntimeConfig,
                                            n: nat)
    requires ValidSession(s) && ValidConfig(composed) && n <= FIELD_COUNT
    ensures var r := ReconciledTo(s, active, incoming, composed, n);
            && ValidConfig(r.config) && SameElsewhere(composed, r.config)
            && forall f: field ::
                 && (f < n ==> r.session.mask[f] == (s.mask[f] && !Replaced(s, active, incoming, f)))
                 && QuickValue(r.config, f)
                    == if f < n && s.mask[f] && active.id != s.presetId && !FromPreset(f) then s.saved[f]
                       else QuickValue(composed, f)
  {
    hide QuickValue, WithQuickValue, ValidConfig, ValidValue, AllowsRinse, Retares, Replaced, FromPreset;
    if n > 0 {
      ReconciledFields(s, active, incoming, composed, n - 1);
      var f := n - 1;
      if s.mask[f] && active.id != s.presetId && !FromPreset(f) {
        SetOneValue(ReconciledTo(s, active, incoming, composed, f).config, f, s.saved[f]);
      }
    }
  }

  lemma CommitLinks(s: Session, composed: RuntimeConfig, persisted: RuntimeConfig, active: ShotPreset, incoming: Incoming)
    requires Ready(s, composed, persisted, active, incoming)
    ensures var l := Committed(s, composed, persisted, active, incoming);
            && Linked(l.session, l.effective, l.persisted)
            && (forall f: field :: l.session.mask[f] ==> s.mask[f] && !Replaced(s, active, incoming, f))
            && l.session.presetId == s.presetId && l.active == active && l.persisted == persisted
  {
    hide QuickValue, WithQuickValue, ValidConfig, ValidValue, AllowsRinse, Retares, ReconciledTo, OverlaidTo, Carries,
         PresetQuickValue, FromPreset;
    ReconciledFields(s, active, incoming, composed, FIELD_COUNT);
    var r := ReconciledTo(s, active, incoming, composed, FIELD_COUNT);
    OverlayTouchesMasked(r.session, r.config, false, FIELD_COUNT);
    forall f: field | FromPreset(f)
      ensures QuickValue(persisted, f) == PresetQuickValue(active, f)
    {
      CarriedValues(persisted, active, f);
    }
  }

  lemma NoMaskMeansNothing(mask: seq<bool>)
    requires |mask| == FIELD_COUNT && forall f: field :: !mask[f]
    ensures mask == NOTHING
  {
    assert forall i :: 0 <= i < |mask| ==> !mask[i] by {
      forall i | 0 <= i < |mask|
        ensures !mask[i]
      {
        var f: field := i;
        assert !mask[f];
      }
    }
  }

  lemma CommitKeepsInv(s: Session, composed: RuntimeConfig, persisted: RuntimeConfig, active: ShotPreset,
                       incoming: Incoming)
    requires Ready(s, composed, persisted, active, incoming)
    ensures Inv(Committed(s, composed, persisted, active, incoming))
    ensures active.id != s.presetId ==> Committed(s, composed, persisted, active, incoming).session.mask == NOTHING
  {
    hide Linked, Reconciled, QuickValue, ValidConfig, FromPreset, PresetQuickValue;
    CommitLinks(s, composed, persisted, active, incoming);
    var l := Committed(s, composed, persisted, active, incoming);
    if active.id != s.presetId {
      NoMaskMeansNothing(l.session.mask);
    }
  }

  // ----- each step is ready -----

  lemma ChangeIsReady(l: Live, f: field, value: u8)
    requires Inv(l) && ValidValue(f, value)
    ensures var changed := SetSession(l.session, l.active.id, l.effective, f, value);
            Ready(changed.session, changed.config, l.persisted, l.active, NoEdit)
  {
    hide QuickValue, WithQuickValue, ValidConfig, ValidValue, AllowsRinse, Retares, PresetQuickValue, FromPreset, Composed;
    SetOneValue(l.effective, f, value);
    forall g: field
      ensures ValidValue(g, QuickValue(l.effective, g))
    {
      QuickValuesAreValid(l.effective, g);
    }
    forall g: field | FromPreset(g)
      ensures QuickValue(l.persisted, g) == PresetQuickValue(l.active, g)
    {
      CarriedValues(l.persisted, l.active, g);
    }
  }

  lemma RevertIsReady(l: Live)
    requires Inv(l)
    ensures Ready(l.session.(mask := NOTHING), Overlaid(l.session, l.effective, true), l.persisted, l.active, NoEdit)
  {
    hide QuickValue, ValidConfig, ValidValue, AllowsRinse, Retares, OverlaidTo, FromPreset, Composed;
    OverlayTouchesMasked(l.session, l.effective, true, FIELD_COUNT);
  }

  lemma EditIsReady(l: Live, incoming: RuntimeConfig)
    requires Inv(l) && ValidConfig(incoming)
    ensures var composed := Composed(incoming, l.active);
            Ready(l.session, composed, composed, l.active, Edit(incoming))
  {
    hide QuickValue, AllowsRinse, Retares, FromPreset, PresetQuickValue, ModeOf;
    forall f: field
      ensures QuickValue(Composed(incoming, l.active), f)
           == if FromPreset(f) then PresetQuickValue(l.active, f) else QuickValue(incoming, f)
    {
      ComposedValues(incoming, l.active, f);
    }
  }

  // Composing the effective and the persisted configuration with one preset.
  lemma ComposedIsReady(l: Live, effective: RuntimeConfig, persisted: RuntimeConfig, preset: ShotPreset)
    requires Inv(l) && Linked(l.session, effective, persisted)
    ensures Ready(l.session, Composed(effective, preset), Composed(persisted, preset), preset, NoEdit)
  {
    hide QuickValue, AllowsRinse, Retares, FromPreset, PresetQuickValue, ModeOf;
    forall f: field
      ensures QuickValue(Composed(effective, preset), f)
           == if FromPreset(f) then PresetQuickValue(preset, f) else QuickValue(effective, f)
      ensures QuickValue(Composed(persisted, preset), f)
           == if FromPreset(f) then PresetQuickValue(preset, f) else QuickValue(persisted, f)
    {
      ComposedValues(effective, preset, f);
      ComposedValues(persisted, preset, f);
    }
  }

  lemma DeviceIsNotQuick(c: RuntimeConfig, device: int)
    ensures forall f: field :: QuickValue(c.(device := device), f) == QuickValue(c, f)
  {
  }

  lemma {:induction false} NextKeepsInv(l: Live, step: Step)
    requires Inv(l) && (step.EditSettings? ==> ValidConfig(step.incoming))
    ensures Inv(Next(l, step))
  {
    hide Inv, Ready, Committed, Overlaid, Composed, SetSession, Linked;
    match step
    case Change(f, value) =>
      if ValidValue(f, value) && QuickValue(l.effective, f) != value {
        ChangeIsReady(l, f, value);
        var changed := SetSession(l.session, l.active.id, l.effective, f, value);
        CommitKeepsInv(changed.session, changed.config, l.persisted, l.active, NoEdit);
      }
    case Revert =>
      RevertIsReady(l);
      CommitKeepsInv(l.session.(mask := NOTHING), Overlaid(l.session, l.effective, true), l.persisted, l.active, NoEdit);
    case EditSettings(incoming) =>
      EditIsReady(l, incoming);
      var composed := Composed(incoming, l.active);
      CommitKeepsInv(l.session, composed, composed, l.active, Edit(incoming));
    case OtherDeviceChange(device) =>
      OtherDeviceIsReady(l, device);
      CommitKeepsInv(l.session, Composed(l.effective.(device := device), l.active), l.persisted.(device := device),
                     l.active, NoEdit);
    case ActivatePreset(preset) =>
      InvLinks(l);
      ComposedIsReady(l, l.effective, l.persisted, preset);
      CommitKeepsInv(l.session, Composed(l.effective, preset), Composed(l.persisted, preset), preset, NoEdit);
  }

  lemma InvLinks(l: Live)
    requires Inv(l)
    ensures Linked(l.session, l.effective, l.persisted) && Carries(l.persisted, l.active)
  {
  }

  lemma OtherDeviceIsReady(l: Live, device: int)
    requires Inv(l)
    ensures Ready(l.session, Composed(l.effective.(device := device), l.active), l.persisted.(device := device), l.active,
                  NoEdit)
  {
    hide QuickValue, FromPreset, PresetQuickValue, Ready, AllowsRinse, Retares, ModeOf;
    DeviceIsNotQuick(l.effective, device);
    DeviceIsNotQuick(l.persisted, device);
    ComposedIsReady(l, l.effective.(device := device), l.persisted.(device := device), l.active);
  }

  // ----- whole runs -----

  function After(l: Live, steps: seq<Step>): (r: Live)
    requires WellFormed(l.session)
    ensures WellFormed(r.session)
  {
    if steps == [] then l else Next(After(l, steps[..|steps| - 1]), steps[|steps| - 1])
  }

  // Boot: the persisted configuration is in force, with no override.
  function Booted(persisted: RuntimeConfig, active: ShotPreset): (l: Live)
    ensures WellFormed(l.session)
  {
    var c := Composed(persisted, active);
    Live(NO_SESSION, c, c, active)
  }

  ghost predicate ValidEdits(steps: seq<Step>) {
    forall k :: 0 <= k < |steps| && steps[k].EditSettings? ==> ValidConfig(steps[k].incoming)
  }

  lemma {:induction false} RunKeepsInv(persisted: RuntimeConfig, active: ShotPreset, steps: seq<Step>)
    requires ValidConfig(persisted) && ValidEdits(steps)
    ensures Inv(After(Booted(persisted, active), steps))
  {
    hide Inv, Next, Composed, ValidConfig;
    if steps == [] {
      BootInv(persisted, active);
    } else {
      RunKeepsInv(persisted, active, steps[..|steps| - 1]);
      NextKeepsInv(After(Booted(persisted, active), steps[..|steps| - 1]), steps[|steps| - 1]);
    }
  }

  lemma BootInv(persisted: RuntimeConfig, active: ShotPreset)
    requires ValidConfig(persisted)
    ensures Inv(Booted(persisted, active))
  {
  }

  // After any run, laying the hidden values over what is in force gives back
  // what is persisted, to the last option bit, and laying the session's values
  // over what is persisted gives what is in force.
  lemma {:induction false} OverridesAreInvisible(persisted: RuntimeConfig, active: ShotPreset, steps: seq<Step>)
    requires ValidConfig(persisted) && ValidEdits(steps)
    ensures var l := After(Booted(persisted, active), steps);
            && Overlaid(l.session, l.effective, true) == l.persisted
            && Overlaid(l.session, l.persisted, false) == l.effective
  {
    hide After, Overlaid, Booted;
    RunKeepsInv(persisted, active, steps);
    LinkedOverlays(After(Booted(persisted, active), steps));
  }

  lemma LinkedOverlays(l: Live)
    requires Inv(l)
    ensures Overlaid(l.session, l.effective, true) == l.persisted
    ensures Overlaid(l.session, l.persisted, false) == l.effective
  {
    hide QuickValue, ValidConfig, AllowsRinse, Retares, Overlaid, ValidValue, Carries;
    OverlayIs(l.session, l.effective, true, l.persisted);
    OverlayIs(l.session, l.persisted, false, l.effective);
  }

  lemma ActivationClears(l: Live, preset: ShotPreset)
    requires Inv(l) && preset.id != l.active.id
    ensures var after := Next(l, ActivatePreset(preset));
            after.session.mask == NOTHING && after.persisted == Composed(l.persisted, preset)
  {
    hide Linked, Committed, Composed, Ready;
    InvLinks(l);
    ComposedIsReady(l, l.effective, l.persisted, preset);
    CommitLinks(l.session, Composed(l.effective, preset), Composed(l.persisted, preset), preset, NoEdit);
    var mask := Next(l, ActivatePreset(preset)).session.mask;
    forall f: field
      ensures !mask[f]
    {
      assert !NOTHING[f];
    }
    NoMaskMeansNothing(mask);
  }

  lemma NothingHidden(l: Live)
    requires Inv(l) && l.session.mask == NOTHING
    ensures l.effective == l.persisted
  {
    hide QuickValue, ValidConfig, AllowsRinse, Retares, Carries;
    SameQuickValuesSameConfig(l.effective, l.persisted);
  }

  // Activating another preset leaves no override and the persisted values in
  // force, the new preset's among them.
  lemma {:induction false} PresetChangeLeavesNoOverride(persisted: RuntimeConfig, active: ShotPreset, steps: seq<Step>,
                                                        preset: ShotPreset)
    requires ValidConfig(persisted) && ValidEdits(steps)
    ensures var before := After(Booted(persisted, active), steps);
            var l := Next(before, ActivatePreset(preset));
            preset.id != before.active.id ==>
              && l.session.mask == NOTHING && l.effective == l.persisted
              && l.persisted == Composed(before.persisted, preset)
  {
    hide After, Inv, Booted, Overlaid, Composed;
    RunKeepsInv(persisted, active, steps);
    var before := After(Booted(persisted, active), steps);
    if preset.id != before.active.id {
      NextKeepsInv(before, ActivatePreset(preset));
      ActivationClears(before, preset);
      NothingHidden(Next(before, ActivatePreset(preset)));
    }
  }
}
