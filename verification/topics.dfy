/**
 * Classification of an inbound meter topic `<root>/<device>/<kind>/<phase>`
 * by the discovery bridge's message handler: which topics are announced
 * to Home Assistant and which are dropped, and why.
 */
module Topics {

  import opened Text

  /** How Home Assistant should present a reading of one kind. */
  datatype Meta = Meta(unit: string, stateClass: string, devClass: string)

  /** The nine reading kinds the bridge announces (`lookup`); `Cosphi` has no unit. */
  const Lookup: map<string, Meta> := map[
    "Export" := Meta("kWh", "total_increasing", "energy"),
    "Import" := Meta("kWh", "total_increasing", "energy"),
    "Sum" := Meta("kWh", "total_increasing", "energy"),
    "Cosphi" := Meta("", "measurement", "power_factor"),
    "Current" := Meta("A", "measurement", "current"),
    "Voltage" := Meta("V", "measurement", "voltage"),
    "Power" := Meta("W", "measurement", "power"),
    "ReactivePower" := Meta("var", "measurement", "reactive_power"),
    "Frequency" := Meta("Hz", "measurement", "frequency")
  ]

  predicate IsDigit(c: char)
  {
    '0' <= c <= '9'
  }

  /** The whole phase matches the regular expression `^T\d+$` (RE2's `\d` is ASCII only). */
  predicate IsTNumber(phase: string)
  {
    |phase| >= 2 && phase[0] == 'T' && forall i :: 1 <= i < |phase| ==> IsDigit(phase[i])
  }

  /** The handler's decision for one inbound topic. */
  datatype Verdict =
    | TooShort
    | ExtraPath
    | StatusDevice
    | TNumberPhase
    | UnknownKind
    | Accepted(device: string, kind: string, phase: string, meta: Meta)

  /**
   * Split the topic on `/`; fewer than four segments, a non-empty join of
   * the segments after the fourth, the device `status`, a `T<digits>` phase
   * or a kind outside `Lookup` drop the message, checked in that order.
   * The first segment is never looked at.
   */
  function Classify(topic: string): (v: Verdict)
    ensures v.Accepted? ==> v.kind in Lookup && v.meta == Lookup[v.kind]
    ensures v.Accepted? ==> v.device != "status" && !IsTNumber(v.phase)
    ensures v.Accepted? ==> '/' !in v.device && '/' !in v.kind && '/' !in v.phase
  {
    ClassifyParts(Split(topic, '/'))
  }

  /** The decision on the `/`-separated segments of a topic. */
  function ClassifyParts(parts: seq<string>): (v: Verdict)
    ensures v.Accepted? ==> |parts| >= 4 && v.device == parts[1] && v.kind == parts[2] && v.phase == parts[3]
  {
    if |parts| < 4 then TooShort
    else
      var device, kind, phase := parts[1], parts[2], parts[3];
      var other := if |parts| > 4 then Join(parts[4..], "/") else "";
      if other != "" then ExtraPath
      else if device == "status" then StatusDevice
      else if IsTNumber(phase) then TNumberPhase
      else if kind !in Lookup then UnknownKind
      else Accepted(device, kind, phase, Lookup[kind])
  }

  /** No piece of a topic segment list holds a `/`. */
  predicate Segments(segs: seq<string>)
  {
    forall i :: 0 <= i < |segs| ==> '/' !in segs[i]
  }

  /** A topic with fewer than three `/` is too short. */
  lemma FewSlashesTooShort(topic: string)
    requires Count(topic, '/') < 3
    ensures Classify(topic) == TooShort
  {
  }

  /**
   * The full decision for a topic made of a root, a device, a kind, a
   * phase and any further segments: it is announced exactly when there
   * are no further segments but possibly one empty one (a trailing `/`),
   * the device is not `status`, the phase is not `T<digits>` and the kind
   * is known; further non-empty segments always make it extra path.
   */
  lemma Decision(root: string, device: string, kind: string, phase: string, extra: seq<string>)
    requires Segments([root, device, kind, phase] + extra)
    ensures Classify(Join([root, device, kind, phase] + extra, "/")).Accepted? <==>
      && (extra == [] || extra == [""])
      && device != "status" && !IsTNumber(phase) && kind in Lookup
    ensures Classify(Join([root, device, kind, phase] + extra, "/")).Accepted? ==>
      Classify(Join([root, device, kind, phase] + extra, "/")) == Accepted(device, kind, phase, Lookup[kind])
    ensures extra != [] && extra != [""] ==> Classify(Join([root, device, kind, phase] + extra, "/")) == ExtraPath
    ensures (extra == [] || extra == [""]) && device == "status" ==>
      Classify(Join([root, device, kind, phase] + extra, "/")) == StatusDevice
  {
    var segs := [root, device, kind, phase] + extra;
    SplitJoin(segs, '/');
    PartsDecision(root, device, kind, phase, extra);
  }

  /** `Decision` on the segments themselves. */
  lemma PartsDecision(root: string, device: string, kind: string, phase: string, extra: seq<string>)
    ensures ClassifyParts([root, device, kind, phase] + extra).Accepted? <==>
      && (extra == [] || extra == [""])
      && device != "status" && !IsTNumber(phase) && kind in Lookup
    ensures ClassifyParts([root, device, kind, phase] + extra).Accepted? ==>
      ClassifyParts([root, device, kind, phase] + extra) == Accepted(device, kind, phase, Lookup[kind])
    ensures extra != [] && extra != [""] ==> ClassifyParts([root, device, kind, phase] + extra) == ExtraPath
    ensures (extra == [] || extra == [""]) && device == "status" ==>
      ClassifyParts([root, device, kind, phase] + extra) == StatusDevice
  {
    var segs := [root, device, kind, phase] + extra;
    assert segs[1] == device && segs[2] == kind && segs[3] == phase;
    assert segs[4..] == extra;
    JoinEmpty(extra, "/");
  }

  /** Four segments joined with `/`, in the nesting the join itself builds. */
  lemma Join4(root: string, device: string, kind: string, phase: string)
    ensures Join([root, device, kind, phase], "/") == root + "/" + (device + "/" + (kind + "/" + phase))
  {
    assert [kind, phase][1..] == [phase];
    assert Join([kind, phase], "/") == kind + "/" + phase;
    assert [device, kind, phase][1..] == [kind, phase];
    assert Join([device, kind, phase], "/") == device + "/" + (kind + "/" + phase);
    assert [root, device, kind, phase][1..] == [device, kind, phase];
  }

  /** Five segments joined with `/`, in the nesting the join itself builds. */
  lemma Join5(root: string, device: string, kind: string, phase: string, extra: string)
    ensures Join([root, device, kind, phase, extra], "/")
         == root + "/" + (device + "/" + (kind + "/" + (phase + "/" + extra)))
  {
    assert [phase, extra][1..] == [extra];
    assert Join([phase, extra], "/") == phase + "/" + extra;
    assert [kind, phase, extra][1..] == [phase, extra];
    assert Join([kind, phase, extra], "/") == kind + "/" + (phase + "/" + extra);
    assert [device, kind, phase, extra][1..] == [kind, phase, extra];
    assert Join([device, kind, phase, extra], "/") == device + "/" + (kind + "/" + (phase + "/" + extra));
    assert [root, device, kind, phase, extra][1..] == [device, kind, phase, extra];
  }

  /** The first segment is never inspected: topics differing only there are classified alike. */
  lemma RootIgnored(root1: string, root2: string, rest: string)
    requires '/' !in root1 && '/' !in root2
    ensures Classify(root1 + "/" + rest) == Classify(root2 + "/" + rest)
  {
    SplitCons(root1, '/', rest);
    SplitCons(root2, '/', rest);
    PartsRootIgnored(root1, root2, Split(rest, '/'));
  }

  lemma PartsRootIgnored(root1: string, root2: string, rest: seq<string>)
    ensures ClassifyParts([root1] + rest) == ClassifyParts([root2] + rest)
  {
    var p1, p2 := [root1] + rest, [root2] + rest;
    assert p1[1..] == p2[1..];
    if |p1| > 4 {
      assert p1[4..] == p2[4..];
    }
  }

  /** `T1` and `T20` are dropped as phases; `T` alone, `t1` and `T1a` are not. */
  lemma TNumberExamples()
    ensures IsTNumber("T1") && IsTNumber("T20")
    ensures !IsTNumber("T") && !IsTNumber("t1") && !IsTNumber("T1a") && !IsTNumber("")
  {
    assert "T1a"[2] == 'a';
  }

  // The examples below name their segments as parameters pinned by
  // `requires` instead of writing the literals into the topic: with
  // literal arguments the verifier expands `Split` over the literal text
  // one character at a time and runs out of resources, while over
  // parameters it only needs `Join4`/`Join5` and `Decision`.

  /** `mbmd/this.1/Power/L1` is announced as a power reading of device `this.1`, phase `L1`. */
  lemma AcceptedExample(root: string, device: string, kind: string, phase: string)
    requires root == "mbmd" && device == "this.1" && kind == "Power" && phase == "L1"
    ensures Classify(root + "/" + (device + "/" + (kind + "/" + phase)))
         == Accepted("this.1", "Power", "L1", Meta("W", "measurement", "power"))
  {
    Join4(root, device, kind, phase);
    assert [root, device, kind, phase] + [] == [root, device, kind, phase];
    Decision(root, device, kind, phase, []);
  }

  /** A trailing `/` leaves one empty extra segment, which is accepted. */
  lemma TrailingSlashExample(root: string, device: string, kind: string, phase: string)
    requires root == "mbmd" && device == "this.1" && kind == "Power" && phase == "L1"
    ensures Classify(root + "/" + (device + "/" + (kind + "/" + (phase + "/" + ""))))
         == Accepted("this.1", "Power", "L1", Meta("W", "measurement", "power"))
  {
    Join5(root, device, kind, phase, "");
    assert [root, device, kind, phase] + [""] == [root, device, kind, phase, ""];
    Decision(root, device, kind, phase, [""]);
  }

  /** The device `status` is never announced. */
  lemma StatusExample(root: string, device: string, kind: string, phase: string)
    requires root == "mbmd" && device == "status" && kind == "Power" && phase == "L1"
    ensures Classify(root + "/" + (device + "/" + (kind + "/" + phase))) == StatusDevice
  {
    Join4(root, device, kind, phase);
    assert [root, device, kind, phase] + [] == [root, device, kind, phase];
    Decision(root, device, kind, phase, []);
  }

  /** A non-empty fifth segment is extra path. */
  lemma ExtraPathExample(root: string, device: string, kind: string, phase: string, extra: string)
    requires root == "mbmd" && device == "this.1" && kind == "Power" && phase == "L1" && extra == "x"
    ensures Classify(root + "/" + (device + "/" + (kind + "/" + (phase + "/" + extra)))) == ExtraPath
  {
    Join5(root, device, kind, phase, extra);
    assert [root, device, kind, phase] + [extra] == [root, device, kind, phase, extra];
    Decision(root, device, kind, phase, [extra]);
  }
}
