// What each session step does to the settings in force: a change takes effect,
// a revert restores, an edit drops exactly the overrides it replaces; and an
// override is held exactly where the session differs from what is persisted.
module SessionLaws {
  import opened Bytes
  import opened SessionOverrides
  import opened SessionRuns

  // An override hides another value than its own.
  ghost predicate Genuine(s: Session)
    requires WellFormed(s)
  {
    forall f: field :: s.mask[f] ==> s.saved[f] != s.value[f]
  }

  lemma CommittedSession(s: Session, composed: RuntimeConfig, persisted: RuntimeConfig, active: ShotPreset,
                         incoming: Incoming)
    requires Ready(s, composed, persisted, active, incoming) && Genuine(s)
    ensures Genuine(Committed(s, composed, persisted, active, incoming).session)
  {
    hide Ready, ReconciledTo, OverlaidTo, Linked;
    CommitLinks(s, composed, persisted, active, incoming);
  }

  lemma GenuineStep(l: Live, step: Step)
    requires Inv(l) && Genuine(l.session) && (step.EditSettings? ==> ValidConfig(step.incoming))
    ensures Genuine(Next(l, step).session)
  {
    hide Inv, Ready, Committed, Overlaid, Composed, Linked, ValidConfig, QuickValue, WithQuickValue;
    match step
    case Change(f, value) =>
      if ValidValue(f, value) && QuickValue(l.effective, f) != value {
        ChangeIsReady(l, f, value);
        var changed := SetSession(l.session, l.active.id, l.effective, f, value);
        CommittedSession(changed.session, changed.config, l.persisted, l.active, NoEdit);
      }
    case Revert =>
      RevertIsReady(l);
      var reverted := l.session.(mask := NOTHING);
      CommittedSession(reverted, Overlaid(l.session, l.effective, true), l.persisted, l.active, NoEdit);
    case EditSettings(incoming) =>
      EditIsReady(l, incoming);
      var composed := Composed(incoming, l.active);
      CommittedSession(l.session, composed, composed, l.active, Edit(incoming));
    case OtherDeviceChange(device) =>
      OtherDeviceIsReady(l, device);
      CommittedSession(l.session, Composed(l.effective.(device := device), l.active), l.persisted.(device := device),
                       l.active, NoEdit);
    case ActivatePreset(preset) =>
      InvLinks(l);
      ComposedIsReady(l, l.effective, l.persisted, preset);
      CommittedSession(l.session, Composed(l.effective, preset), Composed(l.persisted, preset), preset, NoEdit);
  }

  lemma {:induction false} RunKeepsGenuine(persisted: RuntimeConfig, active: ShotPreset, steps: seq<Step>)
    requires ValidConfig(persisted) && ValidEdits(steps)
    ensures Genuine(After(Booted(persisted, active), steps).session)
  {
    hide Inv, Next, Composed, ValidConfig;
    if steps != [] {
      RunKeepsGenuine(persisted, active, steps[..|steps| - 1]);
      RunKeepsInv(persisted, active, steps[..|steps| - 1]);
      GenuineStep(After(Booted(persisted, active), steps[..|steps| - 1]), steps[|steps| - 1]);
    }
  }

  lemma HeldIsDifference(l: Live)
    requires Inv(l) && Genuine(l.session)
    ensures forall f: field :: l.session.mask[f] <==> QuickValue(l.effective, f) != QuickValue(l.persisted, f)
  {
    hide QuickValue, ValidConfig, Carries;
  }

  // After any run an override is held for exactly the settings in force that
  // are not the persisted ones.
  lemma OverridesAreTheDifferences(persisted: RuntimeConfig, active: ShotPreset, steps: seq<Step>)
    requires ValidConfig(persisted) && ValidEdits(steps)
    ensures var l := After(Booted(persisted, active), steps);
            forall f: field :: l.session.mask[f] <==> QuickValue(l.effective, f) != QuickValue(l.persisted, f)
  {
    hide After, Booted, Inv, Genuine, QuickValue;
    RunKeepsInv(persisted, active, steps);
    RunKeepsGenuine(persisted, active, steps);
    HeldIsDifference(After(Booted(persisted, active), steps));
  }

  // ----- single steps -----

  lemma NothingReplaced(l: Live, f: field, value: u8)
    requires Inv(l) && ValidValue(f, value)
    ensures var s := SetSession(l.session, l.active.id, l.effective, f, value).session;
            forall g: field :: s.mask[g] ==> !Replaced(s, l.active, NoEdit, g)
  {
    hide QuickValue, WithQuickValue, ValidConfig, ValidValue, PresetQuickValue, FromPreset, Carries;
    forall g: field | FromPreset(g)
      ensures QuickValue(l.persisted, g) == PresetQuickValue(l.active, g)
    {
      CarriedValues(l.persisted, l.active, g);
    }
  }

  // A change puts its value in force and touches nothing else, neither the other
  // settings nor what is persisted; it is held as an override exactly if it
  // differs from the persisted value.
  lemma ChangeTakesEffect(l: Live, f: field, value: u8)
    requires Inv(l) && Genuine(l.session) && ValidValue(f, value)
    ensures var r := Next(l, Change(f, value));
            && r.persisted == l.persisted && r.active == l.active
            && (forall g: field :: QuickValue(r.effective, g) == if g == f then value else QuickValue(l.effective, g))
            && (r.session.mask[f] <==> value != QuickValue(l.persisted, f))
  {
    hide QuickValue, WithQuickValue, ValidConfig, AllowsRinse, Retares, ReconciledTo, OverlaidTo, Carries, Replaced,
         Ready;
    HeldIsDifference(l);
    if QuickValue(l.effective, f) != value {
      var changed := SetSession(l.session, l.active.id, l.effective, f, value);
      ChangeIsReady(l, f, value);
      CommitLinks(changed.session, changed.config, l.persisted, l.active, NoEdit);
      NothingReplaced(l, f, value);
      ChangedValues(l, f, value);
    }
  }

  lemma ChangedValues(l: Live, f: field, value: u8)
    requires Inv(l) && ValidValue(f, value) && QuickValue(l.effective, f) != value
    requires var s := SetSession(l.session, l.active.id, l.effective, f, value).session;
             forall g: field :: s.mask[g] ==> !Replaced(s, l.active, NoEdit, g)
    ensures var r := Next(l, Change(f, value));
            var s := SetSession(l.session, l.active.id, l.effective, f, value).session;
            forall g: field ::
              && r.session.mask[g] == s.mask[g]
              && QuickValue(r.effective, g) == if g == f then value else QuickValue(l.effective, g)
  {
    hide QuickValue, WithQuickValue, ValidConfig, AllowsRinse, Retares, ReconciledTo, OverlaidTo, Carries, Replaced,
         FromPreset;
    var changed := SetSession(l.session, l.active.id, l.effective, f, value);
    SetOneValue(l.effective, f, value);
    ChangeIsReady(l, f, value);
    ReconciledFields(changed.session, l.active, NoEdit, changed.config, FIELD_COUNT);
    var r := ReconciledTo(changed.session, l.active, NoEdit, changed.config, FIELD_COUNT);
    OverlayTouchesMasked(r.session, r.config, false, FIELD_COUNT);
  }

  // The setting that changes is the one the command names.
  lemma ChangeSetsTheSetting(l: Live, f: field, value: u8)
    requires Inv(l) && Genuine(l.session) && ValidValue(f, value)
    ensures var c := Next(l, Change(f, value)).effective;
            && (f == 0 ==> (c.timerOnly <==> value == 0)) && (f == 1 ==> c.noScaleBbwMode % 4 == value)
            && (f == 2 ==> (c.scaleLossEnabled <==> value == 1)) && (f == 3 ==> (c.slowSideEnabled <==> value == 1))
            && (f == 4 ==> (c.fastSideEnabled <==> value == 1))
            && (f == 5 ==> (c.avoidAccidentalTouchEnabled <==> value == 1))
            && (f == 6 ==> (c.cupProtectionEnabled <==> value == 1))
  {
    hide Inv, Genuine, Next;
    ChangeTakesEffect(l, f, value);
    assert QuickValue(Next(l, Change(f, value)).effective, f) == value;
  }

  // A revert puts the persisted settings back in force and leaves no override.
  lemma RevertRestores(l: Live)
    requires Inv(l)
    ensures var r := Next(l, Revert);
            r.session.mask == NOTHING && r.effective == r.persisted == l.persisted && r.active == l.active
  {
    hide Inv, Linked, Overlaid, Ready, ReconciledTo, OverlaidTo;
    NextKeepsInv(l, Revert);
    RevertIsReady(l);
    var s := l.session.(mask := NOTHING);
    CommitLinks(s, Overlaid(l.session, l.effective, true), l.persisted, l.active, NoEdit);
    if l.session.mask != NOTHING {
      var mask := Next(l, Revert).session.mask;
      forall f: field
        ensures !mask[f]
      {
        assert !NOTHING[f];
      }
      NoMaskMeansNothing(mask);
    }
    NothingHidden(Next(l, Revert));
  }

  // Saving settings persists them and drops exactly the overrides of the
  // settings it changed; the other overrides stay in force.
  lemma EditDropsExactly(l: Live, incoming: RuntimeConfig)
    requires Inv(l) && ValidConfig(incoming)
    ensures var r := Next(l, EditSettings(incoming));
            && r.persisted == Composed(incoming, l.active) && r.active == l.active
            && forall f: field ::
                 && (r.session.mask[f]
                     <==> l.session.mask[f] && QuickValue(r.persisted, f) == QuickValue(l.persisted, f))
                 && QuickValue(r.effective, f)
                    == if r.session.mask[f] then QuickValue(l.effective, f) else QuickValue(r.persisted, f)
  {
    hide QuickValue, WithQuickValue, ValidConfig, AllowsRinse, Retares, ReconciledTo, OverlaidTo, Carries,
         PresetQuickValue, FromPreset, ValidValue;
    var composed := Composed(incoming, l.active);
    EditIsReady(l, incoming);
    CommitLinks(l.session, composed, composed, l.active, Edit(incoming));
    ReconciledFields(l.session, l.active, Edit(incoming), composed, FIELD_COUNT);
    forall f: field
      ensures QuickValue(composed, f)
           == if FromPreset(f) then PresetQuickValue(l.active, f) else QuickValue(incoming, f)
      ensures FromPreset(f) ==> QuickValue(l.persisted, f) == PresetQuickValue(l.active, f)
    {
      ComposedValues(incoming, l.active, f);
      if FromPreset(f) {
        CarriedValues(l.persisted, l.active, f);
      }
    }
  }
}
