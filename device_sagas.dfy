/** The client's check that its selected input devices still exist. For every media source
    (microphone, webcam, screen, in the order of the client's source list) a device may be
    selected, either a local one by device id or one offered by an equipment connection.
    When the local devices are listed anew, each source whose local device is gone is reset
    and an info message names the source; when the synchronized equipment changes, each
    source whose equipment device is gone is reset the same way. The effects the check emits
    are returned as a list; the message keys stand for the translated texts. */
module DeviceSagas {
  import opened Common

  datatype SelectedDevice =
    | LocalDevice(deviceId: string)
    | EquipmentDevice(connectionId: string, deviceId: string)

  datatype InputDevice = InputDevice(deviceId: string, description: string)

  datatype EquipmentConnection = EquipmentConnection(devices: seq<InputDevice>)

  /** The effects the check emits: clearing the device of a source, and an info message. */
  datatype Effect = ResetDevice(source: string) | ShowInfo(messageKey: string, name: string)

  const LocalDisconnectedMessage := "conference.notifications.device_disconnected_local"
  const EquipmentDisconnectedMessage := "conference.notifications.device_disconnected_equipment"

  predicate Lists(devices: seq<InputDevice>, deviceId: string)
  {
    exists i :: 0 <= i < |devices| && devices[i].deviceId == deviceId
  }

  /** A source has a local device selected that is not among the listed devices. */
  predicate LocalReset(settings: map<string, Option<SelectedDevice>>, available: seq<InputDevice>, source: string)
  {
    && source in settings
    && settings[source].Some?
    && settings[source].value.LocalDevice?
    && !Lists(available, settings[source].value.deviceId)
  }

  /** A source has an equipment device selected whose connection is gone or no longer offers
      the device; without synchronized equipment every such device is gone. */
  predicate EquipmentReset(settings: map<string, Option<SelectedDevice>>,
                           equipment: Option<map<string, EquipmentConnection>>, source: string)
  {
    && source in settings
    && settings[source].Some?
    && settings[source].value.EquipmentDevice?
    && var device := settings[source].value;
       || equipment.None?
       || device.connectionId !in equipment.value
       || !Lists(equipment.value[device.connectionId].devices, device.deviceId)
  }

  /** For each source in order, a reset followed by its message when the source needs one. */
  function ResetEffects(sources: seq<string>, needsReset: string -> bool, messageKey: string): seq<Effect>
    decreases |sources|
  {
    if sources == [] then []
    else
      var s := sources[|sources| - 1];
      ResetEffects(sources[..|sources| - 1], needsReset, messageKey)
      + (if needsReset(s) then [ResetDevice(s), ShowInfo(messageKey, s)] else [])
  }

  function LocalEffects(sources: seq<string>, settings: map<string, Option<SelectedDevice>>,
                        available: seq<InputDevice>): seq<Effect>
  {
    ResetEffects(sources, s => LocalReset(settings, available, s), LocalDisconnectedMessage)
  }

  function EquipmentEffects(sources: seq<string>, settings: map<string, Option<SelectedDevice>>,
                            equipment: Option<map<string, EquipmentConnection>>): seq<Effect>
  {
    ResetEffects(sources, s => EquipmentReset(settings, equipment, s), EquipmentDisconnectedMessage)
  }

  /** A source is reset exactly when it is in the list and needs it, and a message names
      exactly the sources that are reset. */
  lemma {:induction false} ResetExactlyWhenNeeded(sources: seq<string>, needsReset: string -> bool, messageKey: string,
                                                 source: string)
    ensures ResetDevice(source) in ResetEffects(sources, needsReset, messageKey)
            <==> source in sources && needsReset(source)
    ensures ShowInfo(messageKey, source) in ResetEffects(sources, needsReset, messageKey)
            <==> source in sources && needsReset(source)
    decreases |sources|
  {
    if sources != [] {
      var init := sources[..|sources| - 1];
      ResetExactlyWhenNeeded(init, needsReset, messageKey, source);
      assert sources == init + [sources[|sources| - 1]];
    }
  }

  /** Every reset is immediately followed by the message naming its source, every message
      immediately follows the reset of the source it names, and nothing else is emitted. */
  lemma {:induction false} EveryResetHasItsMessage(sources: seq<string>, needsReset: string -> bool, messageKey: string)
    ensures var effects := ResetEffects(sources, needsReset, messageKey);
      && |effects| % 2 == 0
      && (forall i :: 0 <= i < |effects| && i % 2 == 0 ==>
            && effects[i].ResetDevice?
            && effects[i + 1] == ShowInfo(messageKey, effects[i].source))
      && (forall i :: 0 <= i < |effects| && i % 2 == 1 ==> effects[i].ShowInfo?)
    decreases |sources|
  {
    if sources != [] {
      var init := sources[..|sources| - 1];
      EveryResetHasItsMessage(init, needsReset, messageKey);
      var before := ResetEffects(init, needsReset, messageKey);
      var s := sources[|sources| - 1];
      var effects := ResetEffects(sources, needsReset, messageKey);
      var added := if needsReset(s) then [ResetDevice(s), ShowInfo(messageKey, s)] else [];
      assert effects == before + added;
      forall i | 0 <= i < |effects| && i % 2 == 0
        ensures effects[i].ResetDevice? && effects[i + 1] == ShowInfo(messageKey, effects[i].source)
      {
        if i < |before| {
          assert effects[i] == before[i] && effects[i + 1] == before[i + 1];
        } else {
          assert i == |before|;
        }
      }
      forall i | 0 <= i < |effects| && i % 2 == 1
        ensures effects[i].ShowInfo?
      {
        if i < |before| {
          assert effects[i] == before[i];
        } else {
          assert i == |before| + 1;
        }
      }
    }
  }

  /** The effects follow the order of the sources: checking a list in two parts emits the
      first part's effects, then the second's. */
  lemma {:induction false} EffectsFollowSourceOrder(sources: seq<string>, more: seq<string>, needsReset: string -> bool,
                                                   messageKey: string)
    ensures ResetEffects(sources + more, needsReset, messageKey)
            == ResetEffects(sources, needsReset, messageKey) + ResetEffects(more, needsReset, messageKey)
    decreases |more|
  {
    if more == [] {
      assert sources + more == sources;
    } else {
      var init := more[..|more| - 1];
      EffectsFollowSourceOrder(sources, init, needsReset, messageKey);
      assert (sources + more)[..|sources + more| - 1] == sources + init;
    }
  }

  /** The local check resets a source exactly when a local device is selected for it that is
      not listed; sources without a device and sources with an equipment device are never
      reset by it. */
  lemma LocalCheckResetsMissingLocalDevices(sources: seq<string>, settings: map<string, Option<SelectedDevice>>,
                                            available: seq<InputDevice>, source: string)
    requires source in settings
    ensures ResetDevice(source) in LocalEffects(sources, settings, available)
            <==> && source in sources
                 && settings[source].Some?
                 && settings[source].value.LocalDevice?
                 && forall d :: d in available ==> d.deviceId != settings[source].value.deviceId
    ensures settings[source].None? || settings[source].value.EquipmentDevice?
            ==> ResetDevice(source) !in LocalEffects(sources, settings, available)
  {
    ResetExactlyWhenNeeded(sources, s => LocalReset(settings, available, s), LocalDisconnectedMessage, source);
  }

  /** The equipment check resets a source exactly when an equipment device is selected for
      it and there is no equipment, no such connection, or the connection does not offer the
      device; sources without a device and sources with a local device are never reset by
      it. */
  lemma EquipmentCheckResetsMissingEquipmentDevices(sources: seq<string>, settings: map<string, Option<SelectedDevice>>,
                                                    equipment: Option<map<string, EquipmentConnection>>, source: string)
    requires source in settings
    ensures ResetDevice(source) in EquipmentEffects(sources, settings, equipment)
            <==> && source in sources
                 && settings[source].Some?
                 && settings[source].value.EquipmentDevice?
                 && (|| equipment.None?
                     || settings[source].value.connectionId !in equipment.value
                     || forall d :: d in equipment.value[settings[source].value.connectionId].devices
                                    ==> d.deviceId != settings[source].value.deviceId)
    ensures settings[source].None? || settings[source].value.LocalDevice?
            ==> ResetDevice(source) !in EquipmentEffects(sources, settings, equipment)
    ensures equipment.None? && source in sources && settings[source].Some? && settings[source].value.EquipmentDevice?
            ==> ResetDevice(source) in EquipmentEffects(sources, settings, equipment)
  {
    ResetExactlyWhenNeeded(sources, s => EquipmentReset(settings, equipment, s), EquipmentDisconnectedMessage, source);
  }

  /** Checks the selected local devices against the newly listed ones. */
  method UpdateLocalDevices(sources: seq<string>, settings: map<string, Option<SelectedDevice>>,
                            available: seq<InputDevice>) returns (effects: seq<Effect>)
    requires forall s :: s in sources ==> s in settings
    ensures effects == LocalEffects(sources, settings, available)
  {
    effects := [];
    for i := 0 to |sources|
      invariant effects == LocalEffects(sources[..i], settings, available)
    {
      var source := sources[i];
      assert sources[..i + 1][..i] == sources[..i];
      var device := settings[source];
      if device.None? {
        continue;
      }
      if device.value.LocalDevice? {
        var found := false;
        for j := 0 to |available|
          invariant found <==> exists k :: 0 <= k < j && available[k].deviceId == device.value.deviceId
        {
          if available[j].deviceId == device.value.deviceId {
            found := true;
          }
        }
        if !found {
          effects := effects + [ResetDevice(source), ShowInfo(LocalDisconnectedMessage, source)];
        }
      }
    }
    assert sources[..|sources|] == sources;
  }

  /** Checks the selected equipment devices against the synchronized equipment. */
  method UpdateEquipment(sources: seq<string>, settings: map<string, Option<SelectedDevice>>,
                         equipment: Option<map<string, EquipmentConnection>>) returns (effects: seq<Effect>)
    requires forall s :: s in sources ==> s in settings
    ensures effects == EquipmentEffects(sources, settings, equipment)
  {
    effects := [];
    for i := 0 to |sources|
      invariant effects == EquipmentEffects(sources[..i], settings, equipment)
    {
      var source := sources[i];
      assert sources[..i + 1][..i] == sources[..i];
      var device := settings[source];
      if device.None? {
        continue;
      }
      if device.value.EquipmentDevice? {
        var found := false;
        if equipment.Some? && device.value.connectionId in equipment.value {
          var offered := equipment.value[device.value.connectionId].devices;
          for j := 0 to |offered|
            invariant found <==> exists k :: 0 <= k < j && offered[k].deviceId == device.value.deviceId
          {
            if offered[j].deviceId == device.value.deviceId {
              found := true;
            }
          }
        }
        if !found {
          effects := effects + [ResetDevice(source), ShowInfo(EquipmentDisconnectedMessage, source)];
        }
      }
    }
    assert sources[..|sources|] == sources;
  }

  /** A microphone on a local device that was unplugged and a webcam on a phone that is still
      connected: only the microphone is reset, with one message. */
  method UnpluggedMicrophoneScenario()
  {
    var settings := map["mic" := Some(LocalDevice("usb-mic")), "webcam" := Some(EquipmentDevice("phone", "cam")),
                        "screen" := None];
    var sources := ["mic", "webcam", "screen"];
    var available := [InputDevice("built-in", "Built-in")];
    assert sources[..2] == ["mic", "webcam"] && sources[..2][..1] == ["mic"] && sources[..2][..1][..0] == [];
    assert available[0].deviceId != "usb-mic";
    assert LocalReset(settings, available, "mic");
    assert !LocalReset(settings, available, "webcam") && !LocalReset(settings, available, "screen");
    var local := UpdateLocalDevices(sources, settings, available);
    assert LocalEffects(["mic"], settings, available) == [ResetDevice("mic"), ShowInfo(LocalDisconnectedMessage, "mic")];
    assert LocalEffects(["mic", "webcam"], settings, available) == LocalEffects(["mic"], settings, available);
    assert local == [ResetDevice("mic"), ShowInfo(LocalDisconnectedMessage, "mic")];
    var equipment := map["phone" := EquipmentConnection([InputDevice("cam", "Camera")])];
    assert equipment["phone"].devices[0].deviceId == "cam";
    assert !EquipmentReset(settings, Some(equipment), "webcam");
    assert !EquipmentReset(settings, Some(equipment), "mic") && !EquipmentReset(settings, Some(equipment), "screen");
    var fromEquipment := UpdateEquipment(sources, settings, Some(equipment));
    assert EquipmentEffects(["mic"], settings, Some(equipment)) == [];
    assert EquipmentEffects(["mic", "webcam"], settings, Some(equipment)) == [];
    assert fromEquipment == [];
  }
}
