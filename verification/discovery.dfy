/**
 * What the discovery bridge announces for an accepted meter topic: the
 * entity name, unique id, config topic and payload record of a Home
 * Assistant MQTT discovery message. The payload is a record; its JSON
 * encoding is not modelled.
 */
module Discovery {

  import opened Wrappers
  import opened Text
  import opened Topics

  /** The `dev` block of a discovery payload. */
  datatype DeviceInfo = DeviceInfo(name: string, ids: string, configUrl: string, manufacturer: string, model: string)

  /** A discovery payload; `unit` is absent when the kind has no unit. */
  datatype Payload = Payload(
    name: string,
    stateTopic: string,
    uniqueId: string,
    deviceClass: string,
    stateClass: string,
    expireAfter: int,
    dev: DeviceInfo,
    unit: Option<string>)

  /** A publish handed to the MQTT client. */
  datatype Message = Message(topic: string, qos: int, retained: bool, payload: Payload)

  /** Seconds after which Home Assistant marks an entity unavailable. */
  const ExpireAfter: int := 60

  /** Manufacturer shown for every device. */
  const Manufacturer: string := "mbmd"

  /** Prefix of every unique id. */
  const UniqueIdPrefix: string := "mbmd-exporter-bridge_"

  /**
   * Prefix of every config topic, up to the dashed device: Home Assistant's
   * discovery prefix, the `sensor` component and the bridge's node prefix.
   */
  const ConfigTopicPrefix: string := "homeassistant" + "/" + ("sensor" + "/" + "mbmd-exporter-bridge-")

  predicate IsDash(c: char)
  {
    c == '-'
  }

  /** Entity name: the kind and the phase, or `Total` for an empty phase. */
  function EntityName(kind: string, phase: string): (n: string)
    ensures |kind| < |n| && n[..|kind|] == kind && n[|kind|] == ' '
    ensures n[|kind| + 1..] == if phase == "" then "Total" else phase
  {
    kind + " " + (if phase == "" then "Total" else phase)
  }

  /** The device id with every `.` replaced by `-`. */
  function Dashed(device: string): (r: string)
    ensures |r| == |device| && '.' !in r
    ensures forall i :: 0 <= i < |device| && device[i] == '.' ==> r[i] == '-'
    ensures forall i :: 0 <= i < |device| && device[i] != '.' ==> r[i] == device[i]
  {
    ReplaceAll(device, '.', '-')
  }

  /**
   * The per-entity part of the unique id and the config topic: kind and
   * phase joined by `-`, every leading and trailing `-` trimmed, `.`
   * replaced by `-`, lower-cased.
   */
  function Suffix(kind: string, phase: string): (r: string)
    ensures |r| <= |kind| + 1 + |phase|
    ensures '.' !in r
    ensures forall i :: 0 <= i < |r| ==> !IsUpper(r[i])
  {
    var u := ReplaceAll(Trim(kind + "-" + phase, IsDash), '.', '-');
    var s := ToLower(u);
    assert '.' !in s by {
      forall i | 0 <= i < |s| ensures s[i] != '.' {
        assert u[i] != '.';
      }
    }
    s
  }

  lemma NoDotUniqueIdPrefix()
    ensures '.' !in UniqueIdPrefix
  {
  }

  /** Text put together from pieces without `.` has none. */
  lemma NoDotJoin(a: string, sep: string, b: string)
    requires '.' !in a && '.' !in sep && '.' !in b
    ensures '.' !in a + sep + b
  {
  }

  /**
   * The suffix in full. With `lo` the number of leading `-` of
   * `kind-phase`, the suffix is the stretch of `kind-phase` that starts at
   * `lo` and leaves out exactly the trailing `-`, with every `.` made `-`
   * and every ASCII upper-case letter lowered.
   */
  lemma SuffixWindow(kind: string, phase: string, lo: nat)
    requires lo <= |kind + "-" + phase|
    requires forall i :: 0 <= i < lo ==> IsDash((kind + "-" + phase)[i])
    requires lo == |kind + "-" + phase| || !IsDash((kind + "-" + phase)[lo])
    ensures var j, r := kind + "-" + phase, Suffix(kind, phase);
      && lo + |r| <= |j|
      && (forall i :: lo + |r| <= i < |j| ==> IsDash(j[i]))
      && (r != "" ==> !IsDash(j[lo + |r| - 1]))
      && (forall i :: 0 <= i < |r| ==> r[i] == Lower(if j[lo + i] == '.' then '-' else j[lo + i]))
  {
    var j := kind + "-" + phase;
    TrimWindow(j, IsDash, lo);
    var t := Trim(j, IsDash);
    var u, r := ReplaceAll(t, '.', '-'), Suffix(kind, phase);
    assert r == ToLower(u) && |r| == |t|;
    assert r != "" ==> j[lo + |r| - 1] == t[|t| - 1];
    forall i | 0 <= i < |r| ensures r[i] == Lower(if j[lo + i] == '.' then '-' else j[lo + i]) {
      assert t[i] == j[lo + i] && r[i] == Lower(u[i]);
    }
  }

  /** The unique id: the bridge's prefix, the dashed device, `_` and the suffix; it never holds a `.`. */
  function UniqueId(device: string, kind: string, phase: string): (id: string)
    ensures |UniqueIdPrefix| < |id|
    ensures '.' !in id
  {
    NoDotUniqueIdPrefix();
    NoDotJoin(UniqueIdPrefix + Dashed(device), "_", Suffix(kind, phase));
    UniqueIdPrefix + Dashed(device) + "_" + Suffix(kind, phase)
  }

  /** Every unique id starts with the bridge's prefix. */
  lemma UniqueIdPrefixed(device: string, kind: string, phase: string)
    ensures var id := UniqueId(device, kind, phase);
      id[..|UniqueIdPrefix|] == UniqueIdPrefix
  {
    ConcatStart(UniqueIdPrefix, Dashed(device), "_", Suffix(kind, phase));
  }

  /** The discovery config topic of an entity, under the bridge's node prefix and ending in `/config`. */
  function ConfigTopic(device: string, kind: string, phase: string): (t: string)
    ensures |ConfigTopicPrefix| + |"/config"| < |t|
  {
    ConfigTopicPrefix + Dashed(device) + "/" + Suffix(kind, phase) + "/config"
  }

  /** Every config topic lies under the bridge's node prefix and ends in `/config`. */
  lemma ConfigTopicFramed(device: string, kind: string, phase: string)
    ensures var t := ConfigTopic(device, kind, phase);
      t[..|ConfigTopicPrefix|] == ConfigTopicPrefix && t[|t| - |"/config"|..] == "/config"
  {
    ConcatEnds(ConfigTopicPrefix, Dashed(device), "/", Suffix(kind, phase), "/config");
  }

  /** The discovery payload for an accepted reading published on `topic`. */
  function PayloadFor(topic: string, device: string, kind: string, phase: string, meta: Meta, url: string): (p: Payload)
    ensures p.stateTopic == topic && p.expireAfter == 60
    ensures p.dev.ids == Dashed(device) && p.dev.manufacturer == "mbmd"
    ensures p.unit.Some? <==> meta.unit != ""
    ensures p.unit.Some? ==> p.unit.value == meta.unit
  {
    Payload(
      EntityName(kind, phase),
      topic,
      UniqueId(device, kind, phase),
      meta.devClass,
      meta.stateClass,
      ExpireAfter,
      DeviceInfo(device, Dashed(device), url, Manufacturer, device),
      if meta.unit != "" then Some(meta.unit) else None)
  }

  /**
   * The message handler's publish for an inbound topic: a retained QoS 0
   * discovery message for an accepted topic, nothing otherwise. `url` is
   * the configuration URL shown for every device.
   */
  function Announce(topic: string, url: string): (m: Option<Message>)
    ensures m.Some? ==> m.value.qos == 0 && m.value.retained && m.value.payload.stateTopic == topic
  {
    match Classify(topic)
    case Accepted(device, kind, phase, meta) =>
      Some(Message(ConfigTopic(device, kind, phase), 0, true, PayloadFor(topic, device, kind, phase, meta, url)))
    case _ => None
  }

  /**
   * An inbound topic is announced exactly when it is accepted; the message
   * is retained at QoS 0 on the config topic of its device, kind and phase,
   * and its payload points back at the inbound topic with the kind's
   * classes, a 60 second expiry and the `mbmd` device block.
   */
  lemma AnnounceSpec(topic: string, url: string)
    ensures Announce(topic, url).Some? <==> Classify(topic).Accepted?
    ensures Announce(topic, url).Some? ==>
      var v, m := Classify(topic), Announce(topic, url).value;
      && m.topic == ConfigTopic(v.device, v.kind, v.phase)
      && m.qos == 0 && m.retained
      && m.payload.stateTopic == topic
      && m.payload.name == EntityName(v.kind, v.phase)
      && m.payload.uniqueId == UniqueId(v.device, v.kind, v.phase)
      && m.payload.deviceClass == Lookup[v.kind].devClass
      && m.payload.stateClass == Lookup[v.kind].stateClass
      && m.payload.expireAfter == 60
      && m.payload.dev == DeviceInfo(v.device, Dashed(v.device), url, "mbmd", v.device)
      && (m.payload.unit.Some? <==> Lookup[v.kind].unit != "")
      && (m.payload.unit.Some? ==> m.payload.unit.value == Lookup[v.kind].unit)
  {
  }

  /** Lower-casing keeps a character other than `/` away from `/`. */
  lemma LowerSlash(c: char)
    ensures Lower(c) == '/' <==> c == '/'
  {
  }

  /**
   * The config topic splits into the five segments Home Assistant expects,
   * `homeassistant/sensor/<node>/<object>/config`, whenever the device,
   * kind and phase hold no `/` (as they never do once split from a topic):
   * the node is the dashed device behind the bridge prefix, the object the
   * suffix.
   */
  lemma ConfigTopicSegments(device: string, kind: string, phase: string)
    requires '/' !in device && '/' !in kind && '/' !in phase
    ensures Split(ConfigTopic(device, kind, phase), '/')
         == ["homeassistant", "sensor", "mbmd-exporter-bridge-" + Dashed(device), Suffix(kind, phase), "config"]
  {
    var node := "mbmd-exporter-bridge-" + Dashed(device);
    var obj := Suffix(kind, phase);
    var segs := ["homeassistant", "sensor", node, obj, "config"];
    DashedNoSlash(device);
    SuffixNoSlash(kind, phase);
    ConfigSegmentsNoSlash(node, obj);
    assert ConfigTopic(device, kind, phase) == Join(segs, "/") by {
      Join5("homeassistant", "sensor", node, obj, "config");
      ConfigTopicSpelled(Dashed(device), obj);
    }
    SplitJoin(segs, '/');
  }

  /** The fixed segments of a config topic hold no `/`. */
  lemma ConfigSegmentsNoSlash(node: string, obj: string)
    requires '/' !in node && '/' !in obj
    ensures Segments(["homeassistant", "sensor", node, obj, "config"])
  {
    var segs := ["homeassistant", "sensor", node, obj, "config"];
    forall i | 0 <= i < 5 ensures '/' !in segs[i] {
      if i == 0 {
        assert forall j :: 0 <= j < |"homeassistant"| ==> "homeassistant"[j] != '/';
      } else if i == 1 {
        assert forall j :: 0 <= j < |"sensor"| ==> "sensor"[j] != '/';
      } else if i == 4 {
        assert forall j :: 0 <= j < |"config"| ==> "config"[j] != '/';
      }
    }
  }

  /** The config topic's fixed text, cut at its `/`. */
  lemma ConfigTopicSpelled(dashed: string, suffix: string)
    ensures ConfigTopicPrefix + dashed + "/" + suffix + "/config"
         == "homeassistant" + "/" + ("sensor" + "/" + (("mbmd-exporter-bridge-" + dashed) + "/" + (suffix + "/" + "config")))
  {
    assert "/config" == "/" + "config";
    Regroup("homeassistant", "sensor", "mbmd-exporter-bridge-", dashed, suffix, "config", "/");
  }


  lemma DashedNoSlash(device: string)
    requires '/' !in device
    ensures '/' !in "mbmd-exporter-bridge-" + Dashed(device)
  {
    var d := Dashed(device);
    forall i | 0 <= i < |d| ensures d[i] != '/' {
      assert device[i] != '/';
    }
  }

  lemma SuffixNoSlash(kind: string, phase: string)
    requires '/' !in kind && '/' !in phase
    ensures '/' !in Suffix(kind, phase)
  {
    var t := Trim(kind + "-" + phase, IsDash);
    assert '/' !in kind + "-" + phase;
    assert '/' !in t;
    var u := ReplaceAll(t, '.', '-');
    assert '/' !in u by {
      forall i | 0 <= i < |u| ensures u[i] != '/' {
        assert t[i] != '/';
      }
    }
    var obj := Suffix(kind, phase);
    forall i | 0 <= i < |obj| ensures obj[i] != '/' {
      LowerSlash(u[i]);
    }
  }

  /** With a kind that does not start with `-` and a phase that does not end with `-`, the suffix is their dashed join, lower-cased. */
  lemma SuffixOfPlainParts(kind: string, phase: string)
    requires kind != "" && !IsDash(kind[0])
    requires phase != "" && !IsDash(phase[|phase| - 1])
    ensures Suffix(kind, phase) == ToLower(ReplaceAll(kind + "-" + phase, '.', '-'))
  {
    var t := kind + "-" + phase;
    assert t[0] == kind[0] && t[|t| - 1] == phase[|phase| - 1];
    TrimPadded("", t, "", IsDash);
    assert "" + t + "" == t;
  }

  /** An empty phase leaves only the kind: its trailing `-` is trimmed away. */
  lemma SuffixOfEmptyPhase(kind: string)
    requires kind != "" && !IsDash(kind[0]) && !IsDash(kind[|kind| - 1])
    ensures Suffix(kind, "") == ToLower(ReplaceAll(kind, '.', '-'))
  {
    assert "" + kind == kind;
    assert kind + "-" + "" == kind + "-";
    TrimPadded("", kind, "-", IsDash);
    assert Trim(kind + "-" + "", IsDash) == kind;
  }

  /** The suffix and the dashed device of the reading `mbmd/this.1/Power/L1`. */
  lemma ExampleParts(device: string, kind: string, phase: string)
    requires device == "this.1" && kind == "Power" && phase == "L1"
    ensures Suffix(kind, phase) == "power-l1"
    ensures Dashed(device) == "this-1"
  {
    SuffixExample();
    DashedExample();
  }

  lemma SuffixExample()
    ensures Suffix("Power", "L1") == "power-l1"
  {
    SuffixOfPlainParts("Power", "L1");
    assert "Power" + "-" + "L1" == "Power-L1";
    ReplaceAllAbsent("Power-L1", '.', '-');
    LowerExample();
  }

  /** A trailing `-` of the phase is trimmed away. */
  lemma TrailingDashExample()
    ensures Suffix("Power", "L1-") == "power-l1"
  {
    TrimPadded("", "Power-L1", "-", IsDash);
    assert "Power" + "-" + "L1-" == "" + "Power-L1" + "-";
    ReplaceAllAbsent("Power-L1", '.', '-');
    LowerExample();
  }

  lemma LowerExample()
    ensures ToLower("Power-L1") == "power-l1"
  {
    var r := ToLower("Power-L1");
    forall i | 0 <= i < 8 ensures r[i] == "power-l1"[i] {
      assert r[i] == Lower("Power-L1"[i]);
    }
  }

  lemma DashedExample()
    ensures Dashed("this.1") == "this-1"
  {
    var r := Dashed("this.1");
    assert r[4] == '-';
  }

  /** The reading `mbmd/this.1/Power/L1` is announced as `Power L1` with unique id `mbmd-exporter-bridge_this-1_power-l1`. */
  lemma NamingExample(device: string, kind: string, phase: string)
    requires device == "this.1" && kind == "Power" && phase == "L1"
    ensures EntityName(kind, phase) == "Power L1"
    ensures UniqueId(device, kind, phase) == "mbmd-exporter-bridge_this-1_power-l1"
  {
    UniqueIdExample(device, kind, phase);
  }

  lemma UniqueIdExample(device: string, kind: string, phase: string)
    requires device == "this.1" && kind == "Power" && phase == "L1"
    ensures UniqueId(device, kind, phase) == "mbmd-exporter-bridge_this-1_power-l1"
  {
    ExampleParts(device, kind, phase);
    UniqueIdSpelled();
  }

  lemma UniqueIdSpelled()
    ensures UniqueIdPrefix + "this-1" + "_" + "power-l1" == "mbmd-exporter-bridge_this-1_power-l1"
  {
  }

  /** The same reading's config topic is `homeassistant/sensor/mbmd-exporter-bridge-this-1/power-l1/config`. */
  lemma ConfigTopicExample(device: string, kind: string, phase: string)
    requires device == "this.1" && kind == "Power" && phase == "L1"
    ensures ConfigTopic(device, kind, phase) == "homeassistant/sensor/mbmd-exporter-bridge-this-1/power-l1/config"
  {
    ExampleParts(device, kind, phase);
    ConfigTopicExampleSpelled();
  }

  lemma ConfigTopicExampleSpelled()
    ensures ConfigTopicPrefix + "this-1" + "/" + "power-l1" + "/config"
         == "homeassistant/sensor/mbmd-exporter-bridge-this-1/power-l1/config"
  {
    ConfigTopicPrefixSpelled();
  }

  lemma ConfigTopicPrefixSpelled()
    ensures ConfigTopicPrefix == "homeassistant/sensor/mbmd-exporter-bridge-"
  {
  }

  /** An empty phase is named `Total`. */
  lemma TotalExample()
    ensures EntityName("Sum", "") == "Sum Total"
  {
  }

  /** The unit is carried exactly for kinds that have one: `Cosphi` is announced without a unit, `Power` in `W`. */
  lemma UnitExamples(topic: string, device: string, phase: string, url: string)
    ensures PayloadFor(topic, device, "Cosphi", phase, Lookup["Cosphi"], url).unit == None
    ensures PayloadFor(topic, device, "Power", phase, Lookup["Power"], url).unit == Some("W")
  {
    KindUnits();
  }

  lemma KindUnits()
    ensures Lookup["Cosphi"].unit == "" && Lookup["Power"].unit == "W"
  {
  }

  /** Characters with the same lower-case form are both `-` or neither, and both `.` or neither. */
  lemma LowerKeepsPunctuation(c: char, d: char)
    requires Lower(c) == Lower(d)
    ensures IsDash(c) <==> IsDash(d)
    ensures c == '.' <==> d == '.'
  {
  }

  /**
   * Phases that differ only in ASCII case give the same suffix, and so the
   * same config topic and unique id: `L1` and `l1` announce one entity.
   */
  lemma PhaseCaseIgnored(device: string, kind: string, p1: string, p2: string)
    requires |p1| == |p2|
    requires forall i :: 0 <= i < |p1| ==> Lower(p1[i]) == Lower(p2[i])
    ensures Suffix(kind, p1) == Suffix(kind, p2)
    ensures ConfigTopic(device, kind, p1) == ConfigTopic(device, kind, p2)
    ensures UniqueId(device, kind, p1) == UniqueId(device, kind, p2)
  {
    SuffixCaseBlind(kind, p1, p2);
  }

  /** Phases that differ only in ASCII case give the same suffix. */
  lemma SuffixCaseBlind(kind: string, p1: string, p2: string)
    requires |p1| == |p2|
    requires forall i :: 0 <= i < |p1| ==> Lower(p1[i]) == Lower(p2[i])
    ensures Suffix(kind, p1) == Suffix(kind, p2)
  {
    var t1, t2 := Trim(kind + "-" + p1, IsDash), Trim(kind + "-" + p2, IsDash);
    JoinCaseBlind(kind, p1, p2);
    TrimCaseBlind(kind + "-" + p1, kind + "-" + p2);
    var r1, r2 := Suffix(kind, p1), Suffix(kind, p2);
    assert r1 == ToLower(ReplaceAll(t1, '.', '-')) && r2 == ToLower(ReplaceAll(t2, '.', '-'));
    forall i | 0 <= i < |r1| ensures r1[i] == r2[i] {
      LowerKeepsPunctuation(t1[i], t2[i]);
    }
  }

  /** Trimming texts that differ only in ASCII case keeps texts that differ only in ASCII case. */
  lemma TrimCaseBlind(s1: string, s2: string)
    requires |s1| == |s2|
    requires forall i :: 0 <= i < |s1| ==> Lower(s1[i]) == Lower(s2[i])
    ensures |Trim(s1, IsDash)| == |Trim(s2, IsDash)|
    ensures forall i :: 0 <= i < |Trim(s1, IsDash)| ==> Lower(Trim(s1, IsDash)[i]) == Lower(Trim(s2, IsDash)[i])
  {
    assert SameShape(s1, s2, IsDash) by {
      forall i | 0 <= i < |s1| ensures IsDash(s1[i]) <==> IsDash(s2[i]) {
        LowerKeepsPunctuation(s1[i], s2[i]);
      }
    }
    TrimShape(s1, s2, IsDash);
    TrimIndex(s1, IsDash);
    TrimIndex(s2, IsDash);
    var t1, t2, k := Trim(s1, IsDash), Trim(s2, IsDash), |s1| - |TrimLeft(s1, IsDash)|;
    forall i | 0 <= i < |t1| ensures Lower(t1[i]) == Lower(t2[i]) {
      assert t1[i] == s1[k + i] && t2[i] == s2[k + i];
    }
  }

  /** Joining a kind to phases that differ only in ASCII case gives texts that differ only in ASCII case. */
  lemma JoinCaseBlind(kind: string, p1: string, p2: string)
    requires |p1| == |p2|
    requires forall i :: 0 <= i < |p1| ==> Lower(p1[i]) == Lower(p2[i])
    ensures |kind + "-" + p1| == |kind + "-" + p2|
    ensures forall i :: 0 <= i < |kind + "-" + p1| ==> Lower((kind + "-" + p1)[i]) == Lower((kind + "-" + p2)[i])
  {
    var j1, j2 := kind + "-" + p1, kind + "-" + p2;
    forall i | 0 <= i < |j1| ensures Lower(j1[i]) == Lower(j2[i]) {
      if i > |kind| {
        assert j1[i] == p1[i - |kind| - 1] && j2[i] == p2[i - |kind| - 1];
      }
    }
  }

  /** `this.1/Power/L1` and `this.1/Power/l1` share their config topic and unique id. */
  lemma PhaseCaseExample()
    ensures ConfigTopic("this.1", "Power", "L1") == ConfigTopic("this.1", "Power", "l1")
    ensures UniqueId("this.1", "Power", "L1") == UniqueId("this.1", "Power", "l1")
  {
    PhaseCaseIgnored("this.1", "Power", "L1", "l1");
  }

  /**
   * Device ids that differ only in `.` against `-` share their config
   * topic and unique id, so the later reading's announcement replaces the
   * earlier one.
   */
  lemma DashedDevicesShareEntity(d1: string, d2: string, kind: string, phase: string)
    requires |d1| == |d2|
    requires forall i :: 0 <= i < |d1| ==> d1[i] == d2[i] || ((d1[i] == '.' || d1[i] == '-') && (d2[i] == '.' || d2[i] == '-'))
    ensures ConfigTopic(d1, kind, phase) == ConfigTopic(d2, kind, phase)
    ensures UniqueId(d1, kind, phase) == UniqueId(d2, kind, phase)
  {
    assert Dashed(d1) == Dashed(d2);
  }

  /** `this.1` and `this-1` are announced as one entity. */
  lemma DashedDevicesExample(kind: string, phase: string)
    ensures ConfigTopic("this.1", kind, phase) == ConfigTopic("this-1", kind, phase)
    ensures UniqueId("this.1", kind, phase) == UniqueId("this-1", kind, phase)
  {
    assert Dashed("this.1") == "this-1" == Dashed("this-1");
  }
}
