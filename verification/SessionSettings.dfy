// The session's overrides as they are kept and updated in place.
module SessionSettings {
  import opened Bytes
  import opened SessionOverrides

  class SessionQuickSettings {
    var mask: seq<bool>
    var presetId: u8
    const value: array<u8>
    const saved: array<u8>

    ghost predicate Sound()
      reads this`mask
    {
      |mask| == value.Length == saved.Length == FIELD_COUNT && value != saved
    }

    ghost function View(): (s: Session)
      requires Sound()
      reads this, value, saved
      ensures WellFormed(s)
    {
      Session(mask, presetId, value[..], saved[..])
    }

    constructor ()
      ensures Sound() && fresh(value) && fresh(saved) && View() == NO_SESSION
    {
      mask, presetId := NOTHING, 0;
      value := new u8[FIELD_COUNT](i => 0);
      saved := new u8[FIELD_COUNT](i => 0);
      new;
      assert value[..] == ZEROS && saved[..] == ZEROS;
    }

    // Lays the session's values, or the ones they hide, over a configuration.
    method Overlay(config: RuntimeConfig, hidden: bool) returns (c: RuntimeConfig)
      requires Sound()
      ensures c == Overlaid(View(), config, hidden)
    {
      hide WithQuickValue;
      c := config;
      for index := 0 to FIELD_COUNT
        invariant c == OverlaidTo(View(), config, hidden, index)
      {
        if mask[index] {
          c := WithQuickValue(c, index, if hidden then saved[index] else value[index]);
        }
      }
    }

    method Set(activePresetId: u8, effective: RuntimeConfig, f: field, newValue: u8) returns (c: RuntimeConfig)
      requires Sound()
      modifies this, value, saved
      ensures Sound() && Changed(View(), c) == SetSession(old(View()), activePresetId, effective, f, newValue)
    {
      hide WithQuickValue, QuickValue;
      if mask == NOTHING {
        presetId := activePresetId;
      }
      if !mask[f] {
        saved[f] := QuickValue(effective, f);
      }
      value[f] := newValue;
      mask := mask[f := saved[f] != newValue];
      c := WithQuickValue(effective, f, newValue);
      assert saved[..] == old(saved[..])[f := saved[f]];
    }

    // Drops the overrides a persisted change replaced and re-applies the rest.
    method Reconcile(active: ShotPreset, incoming: Incoming, composed: RuntimeConfig) returns (c: RuntimeConfig)
      requires Sound()
      modifies this`mask
      ensures Sound() && Changed(View(), c) == Reconciled(old(View()), active, incoming, composed)
    {
      hide WithQuickValue, QuickValue, OverlaidTo, PresetQuickValue;
      ghost var before := View();
      c := composed;
      var presetChanged := active.id != presetId;
      for index := 0 to FIELD_COUNT
        modifies this`mask
        invariant Sound()
        invariant Changed(View(), c) == ReconciledTo(before, active, incoming, composed, index)
      {
        if mask[index] {
          if presetChanged && !FromPreset(index) {
            c := WithQuickValue(c, index, saved[index]);
          }
          var edited := presetChanged ||
            (if FromPreset(index) then PresetQuickValue(active, index) != saved[index]
             else incoming.Edit? && QuickValue(incoming.config, index) != saved[index]);
          if edited {
            mask := mask[index := false];
          }
        }
      }
      c := Overlay(c, false);
    }
  }
}
