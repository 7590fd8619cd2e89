/**
 * Device display names: the name map read from the device configuration
 * (`loadDeviceNameMap`) and its lookup by the numeric suffix of an upstream
 * device id (`extractID`).
 */
module DeviceNames {

  import opened Wrappers
  import opened Text

  /** One entry of the configuration's device list; only `name` and `id` are used. */
  datatype DeviceEntry = DeviceEntry(name: string, deviceType: string, id: int, adapter: string)

  /** What reading and decoding the configuration file gave. */
  datatype ConfigRead =
    | ReadFailed
    | ParseFailed
    | Parsed(devices: seq<DeviceEntry>)

  /**
   * `extractID`: the text after the last `.` of the id, which may be empty,
   * and the empty string when the id has no `.` at all.
   */
  function ExtractID(deviceID: string): (r: string)
    ensures '.' !in r
    ensures '.' !in deviceID ==> r == ""
    ensures '.' in deviceID ==>
      |r| < |deviceID| && deviceID[|deviceID| - |r| - 1] == '.' && r == deviceID[|deviceID| - |r|..]
  {
    if deviceID == "" then ""
    else
      var parts := Split(deviceID, '.');
      if |parts| < 2 then ""
      else
        JoinSnoc(parts[..|parts| - 1], ".", parts[|parts| - 1]);
        assert parts[..|parts| - 1] + [parts[|parts| - 1]] == parts;
        parts[|parts| - 1]
  }

  /**
   * The display name (`pretty`) of a device: the name map entry of its
   * extracted id, or the empty string when the id is empty or unnamed.
   */
  function DisplayName(deviceID: string, names: map<string, string>): (r: string)
    ensures ExtractID(deviceID) == "" || ExtractID(deviceID) !in names ==> r == ""
    ensures r != "" ==> ExtractID(deviceID) in names && r == names[ExtractID(deviceID)]
  {
    var idStr := ExtractID(deviceID);
    if idStr != "" && idStr in names then names[idStr] else ""
  }

  /** The name of the last device in `devices` whose id is spelled `key`, if any. */
  function LastNameFor(devices: seq<DeviceEntry>, key: string): Option<string>
  {
    if devices == [] then None
    else if Itoa(devices[|devices| - 1].id) == key then Some(devices[|devices| - 1].name)
    else LastNameFor(devices[..|devices| - 1], key)
  }

  /** `names` is the map built from `devices`: each spelled id goes to the last name given for it. */
  ghost predicate IsNameMap(names: map<string, string>, devices: seq<DeviceEntry>)
  {
    forall key :: (key in names <==> LastNameFor(devices, key).Some?)
      && (key in names ==> names[key] == LastNameFor(devices, key).value)
  }

  /**
   * The list-to-map fold of `loadDeviceNameMap`: a failed read or parse
   * gives the empty map; otherwise each device's id, in decimal, is mapped
   * to its name, a later entry overwriting an earlier one with the same id.
   */
  method LoadDeviceNameMap(config: ConfigRead) returns (names: map<string, string>)
    ensures !config.Parsed? ==> names == map[]
    ensures config.Parsed? ==> IsNameMap(names, config.devices)
  {
    names := map[];
    if !config.Parsed? {
      return;
    }
    var devices := config.devices;
    for i := 0 to |devices|
      invariant IsNameMap(names, devices[..i])
    {
      assert devices[..i + 1][..i] == devices[..i];
      names := names[Itoa(devices[i].id) := devices[i].name];
    }
    assert devices[..|devices|] == devices;
  }

  /** A key with an entry is the spelled id of some device. */
  lemma {:induction false} LastNameForWitness(devices: seq<DeviceEntry>, key: string) returns (i: nat)
    requires LastNameFor(devices, key).Some?
    ensures i < |devices| && Itoa(devices[i].id) == key
  {
    var n := |devices| - 1;
    if Itoa(devices[n].id) == key {
      i := n;
    } else {
      i := LastNameForWitness(devices[..n], key);
      assert devices[..n][i] == devices[i];
    }
  }

  /** The spelled id of any device has an entry. */
  lemma {:induction false} LastNameForFound(devices: seq<DeviceEntry>, key: string, i: nat)
    requires i < |devices| && Itoa(devices[i].id) == key
    ensures LastNameFor(devices, key).Some?
  {
    var n := |devices| - 1;
    if i < n && Itoa(devices[n].id) != key {
      assert devices[..n][i] == devices[i];
      LastNameForFound(devices[..n], key, i);
    }
  }

  /** A spelled id has an entry exactly when some device has that id. */
  lemma LastNameForIdDefined(devices: seq<DeviceEntry>, id: int)
    ensures LastNameFor(devices, Itoa(id)).Some? <==> exists i :: 0 <= i < |devices| && devices[i].id == id
  {
    if LastNameFor(devices, Itoa(id)).Some? {
      var i := LastNameForWitness(devices, Itoa(id));
      ItoaInjective(devices[i].id, id);
    }
    if exists i :: 0 <= i < |devices| && devices[i].id == id {
      var i :| 0 <= i < |devices| && devices[i].id == id;
      LastNameForFound(devices, Itoa(id), i);
    }
  }

  /** The entry of a configured id is the name of the last device with that id. */
  lemma {:induction false} LastNameForIdIsLast(devices: seq<DeviceEntry>, id: int, i: int)
    requires 0 <= i < |devices| && devices[i].id == id
    requires forall j :: i < j < |devices| ==> devices[j].id != id
    ensures LastNameFor(devices, Itoa(id)) == Some(devices[i].name)
  {
    var n := |devices| - 1;
    if i < n {
      if Itoa(devices[n].id) == Itoa(id) {
        ItoaInjective(devices[n].id, id);
      }
      LastNameForIdIsLast(devices[..n], id, i);
    }
  }

  /**
   * The display name of an upstream device id whose last `.`-segment is a
   * configured id, in decimal, is the name configured last for that id.
   */
  lemma ConfiguredDisplayName(prefix: string, id: int, devices: seq<DeviceEntry>, names: map<string, string>)
    requires IsNameMap(names, devices)
    requires exists i :: 0 <= i < |devices| && devices[i].id == id
    ensures LastNameFor(devices, Itoa(id)).Some?
    ensures DisplayName(prefix + "." + Itoa(id), names) == LastNameFor(devices, Itoa(id)).value
  {
    LastNameForIdDefined(devices, id);
    var digits := Itoa(id);
    assert '.' !in digits by {
      forall i | 0 <= i < |digits| ensures digits[i] != '.' {
        ItoaChars(id, i);
      }
    }
    ExtractAfterDot(prefix, digits);
  }

  /** The id of `prefix.suffix`, for a suffix without `.`, is that suffix. */
  lemma ExtractAfterDot(prefix: string, suffix: string)
    requires '.' !in suffix
    ensures ExtractID(prefix + "." + suffix) == suffix
  {
    var deviceID := prefix + "." + suffix;
    assert deviceID[|prefix|] == '.';
    SplitSnoc(prefix, '.', suffix);
  }

  /** A decimal spelling holds only digits and a leading minus sign. */
  lemma ItoaChars(id: int, i: nat)
    requires i < |Itoa(id)|
    ensures Itoa(id)[i] == '-' || '0' <= Itoa(id)[i] <= '9'
  {
    if id < 0 && i > 0 {
      assert Itoa(id)[i] == Decimal(-id)[i - 1];
      DecimalDigits(-id, i - 1);
    } else if id >= 0 {
      DecimalDigits(id, i);
    }
  }

  /** An id without a `.` never has a display name, whatever the name map holds. */
  lemma NoDotNoName(deviceID: string, names: map<string, string>)
    requires '.' !in deviceID
    ensures DisplayName(deviceID, names) == ""
  {
  }

  /** The configured name of `this.2`, when `2` is named `Kitchen`, is `Kitchen`. */
  lemma KitchenExample()
    ensures DisplayName("this.2", map["2" := "Kitchen"]) == "Kitchen"
  {
    assert "this.2" == "this" + "." + "2";
    ExtractAfterDot("this", "2");
  }
}
