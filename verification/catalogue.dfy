/**
 * The exporter's fixed metric catalogue: the help text of every gauge and
 * counter, and the tables that send an upstream field name to the metric
 * it feeds.
 */
module Catalogue {

  import opened Wrappers

  datatype Kind = Gauge | Counter

  /** A Prometheus metric descriptor as the exporter builds it. */
  datatype Desc = Desc(fqName: string, help: string, labels: seq<string>)

  /** Prefix that keeps the exporter's metrics apart from other exporters'. */
  const Namespace: string := "mbmd_"

  /** Label names every metric carries: the raw device id and its display name. */
  const Labels: seq<string> := ["device", "name"]

  /**
   * Help text of each gauge, by metric key. The two help tables are written
   * as unions of two literals whose keys start with different letters; the
   * union is the source's literal, and the split lets the verifier count the
   * keys of each half separately.
   */
  const GaugeHelp: map<string, string> := PowerGaugeHelp + LineGaugeHelp

  /** Frequency, power and apparent power gauges. */
  const PowerGaugeHelp: map<string, string> := map[
    "frequency_hz" := "Frequency (Hz)",
    "power_l1_watts" := "Power L1 (W)",
    "power_l2_watts" := "Power L2 (W)",
    "power_l3_watts" := "Power L3 (W)",
    "power_watts" := "Power (W)",
    "apparent_power_watts" := "Apparent Power (W)",
    "apparent_power_l1_watts" := "Apparent Power L1 (W)",
    "apparent_power_l2_watts" := "Apparent Power L2 (W)",
    "apparent_power_l3_watts" := "Apparent Power L3 (W)"
  ]

  /** Voltage, current and reactive power gauges. */
  const LineGaugeHelp: map<string, string> := map[
    "voltage_l1_volts" := "Voltage L1 (V)",
    "voltage_l2_volts" := "Voltage L2 (V)",
    "voltage_l3_volts" := "Voltage L3 (V)",
    "voltage_volts" := "Voltage (V)",
    "current_l1_amps" := "Current L1 (A)",
    "current_l2_amps" := "Current L2 (A)",
    "current_l3_amps" := "Current L3 (A)",
    "current_amps" := "Current (A)",
    "reactive_power_vars" := "Reactive Power (var)"
  ]

  /** Help text of each counter, by metric key. */
  const CounterHelp: map<string, string> := TotalHelp + FlowHelp

  /** Total energy counters. */
  const TotalHelp: map<string, string> := map[
    "total_l1_kwh" := "Total L1 (kWh)",
    "total_l2_kwh" := "Total L2 (kWh)",
    "total_l3_kwh" := "Total L3 (kWh)",
    "total_kwh" := "Total (kWh)"
  ]

  /** Import and export energy counters. */
  const FlowHelp: map<string, string> := map[
    "import_l1_kwh" := "Import L1 (kWh)",
    "import_l2_kwh" := "Import L2 (kWh)",
    "import_l3_kwh" := "Import L3 (kWh)",
    "import_kwh" := "Import (kWh)",
    "export_l1_kwh" := "Export L1 (kWh)",
    "export_l2_kwh" := "Export L2 (kWh)",
    "export_l3_kwh" := "Export L3 (kWh)",
    "export_kwh" := "Export (kWh)"
  ]

  /** Upstream field name to gauge metric key (`gaugeMap` in `Collect`). */
  const GaugeFields: map<string, string> := map[
    "Frequency" := "frequency_hz",
    "PowerL1" := "power_l1_watts",
    "PowerL2" := "power_l2_watts",
    "PowerL3" := "power_l3_watts",
    "Power" := "power_watts",
    "ApparentPower" := "apparent_power_watts",
    "ApparentPowerL1" := "apparent_power_l1_watts",
    "ApparentPowerL2" := "apparent_power_l2_watts",
    "ApparentPowerL3" := "apparent_power_l3_watts",
    "VoltageL1" := "voltage_l1_volts",
    "VoltageL2" := "voltage_l2_volts",
    "VoltageL3" := "voltage_l3_volts",
    "Voltage" := "voltage_volts",
    "CurrentL1" := "current_l1_amps",
    "CurrentL2" := "current_l2_amps",
    "CurrentL3" := "current_l3_amps",
    "Current" := "current_amps",
    "ReactivePower" := "reactive_power_vars"
  ]

  /** Upstream field name to counter metric key (`counterMap` in `Collect`). */
  const CounterFields: map<string, string> := map[
    "SumL1" := "total_l1_kwh",
    "SumL2" := "total_l2_kwh",
    "SumL3" := "total_l3_kwh",
    "Sum" := "total_kwh",
    "ImportL1" := "import_l1_kwh",
    "ImportL2" := "import_l2_kwh",
    "ImportL3" := "import_l3_kwh",
    "Import" := "import_kwh",
    "ExportL1" := "export_l1_kwh",
    "ExportL2" := "export_l2_kwh",
    "ExportL3" := "export_l3_kwh",
    "Export" := "export_kwh"
  ]

  /** The descriptor the exporter registers for metric key `key`. */
  function DescFor(key: string, help: string): (d: Desc)
    ensures |d.fqName| == |Namespace| + |key|
    ensures d.fqName[..|Namespace|] == Namespace && d.fqName[|Namespace|..] == key
    ensures d.labels == Labels
  {
    Desc(Namespace + key, help, Labels)
  }

  /** `descs` is exactly the catalogue: one descriptor per gauge and per counter key. */
  ghost predicate IsCatalogue(descs: map<string, Desc>)
  {
    && descs.Keys == GaugeHelp.Keys + CounterHelp.Keys
    && (forall k :: k in GaugeHelp ==> descs[k] == DescFor(k, GaugeHelp[k]))
    && (forall k :: k in CounterHelp ==> descs[k] == DescFor(k, CounterHelp[k]))
  }

  /** The upstream field `field` feeds metric `key` of kind `kind`, if any. */
  function Target(field: string): (t: Option<(string, Kind)>)
    ensures t.Some? <==> field in GaugeFields || field in CounterFields
    ensures t.Some? && t.value.1 == Gauge ==> field in GaugeFields && t.value.0 == GaugeFields[field]
    ensures t.Some? && t.value.1 == Counter ==> field in CounterFields && t.value.0 == CounterFields[field]
  {
    if field in GaugeFields then Some((GaugeFields[field], Gauge))
    else if field in CounterFields then Some((CounterFields[field], Counter))
    else None
  }

  /** Every key of `m` is non-empty and starts with one of the letters in `cs`. */
  ghost predicate Initials(m: map<string, string>, cs: set<char>)
  {
    forall k :: k in m ==> k != "" && k[0] in cs
  }

  /** Tables whose keys start with different letters share no key. */
  lemma DisjointByInitials(m1: map<string, string>, c1: set<char>, m2: map<string, string>, c2: set<char>)
    requires Initials(m1, c1) && Initials(m2, c2) && c1 !! c2
    ensures m1.Keys !! m2.Keys
  {
  }

  lemma GaugeFieldInitials() ensures Initials(GaugeFields, {'F', 'P', 'A', 'V', 'C', 'R'}) { }
  lemma CounterFieldInitials() ensures Initials(CounterFields, {'S', 'I', 'E'}) { }
  lemma PowerGaugeInitials() ensures Initials(PowerGaugeHelp, {'f', 'p', 'a'}) { }
  lemma LineGaugeInitials() ensures Initials(LineGaugeHelp, {'v', 'c', 'r'}) { }
  lemma TotalInitials() ensures Initials(TotalHelp, {'t'}) { }
  lemma FlowInitials() ensures Initials(FlowHelp, {'i', 'e'}) { }

  /** The keys of a union start with the initials of either part. */
  lemma InitialsUnion(m1: map<string, string>, c1: set<char>, m2: map<string, string>, c2: set<char>)
    requires Initials(m1, c1) && Initials(m2, c2)
    ensures Initials(m1 + m2, c1 + c2)
  {
  }

  lemma GaugeHelpInitials()
    ensures Initials(GaugeHelp, {'f', 'p', 'a', 'v', 'c', 'r'})
  {
    PowerGaugeInitials();
    LineGaugeInitials();
    InitialsUnion(PowerGaugeHelp, {'f', 'p', 'a'}, LineGaugeHelp, {'v', 'c', 'r'});
    assert {'f', 'p', 'a'} + {'v', 'c', 'r'} == {'f', 'p', 'a', 'v', 'c', 'r'};
  }

  lemma CounterHelpInitials()
    ensures Initials(CounterHelp, {'t', 'i', 'e'})
  {
    TotalInitials();
    FlowInitials();
    InitialsUnion(TotalHelp, {'t'}, FlowHelp, {'i', 'e'});
    assert {'t'} + {'i', 'e'} == {'t', 'i', 'e'};
  }

  /** No upstream field is both a gauge and a counter, so no field is emitted twice. */
  lemma FieldTablesDisjoint()
    ensures GaugeFields.Keys !! CounterFields.Keys
  {
    GaugeFieldInitials();
    CounterFieldInitials();
    DisjointByInitials(GaugeFields, {'F', 'P', 'A', 'V', 'C', 'R'}, CounterFields, {'S', 'I', 'E'});
  }

  /** No metric key is both a gauge and a counter. */
  lemma HelpTablesDisjoint()
    ensures GaugeHelp.Keys !! CounterHelp.Keys
  {
    GaugeHelpInitials();
    CounterHelpInitials();
    DisjointByInitials(GaugeHelp, {'f', 'p', 'a', 'v', 'c', 'r'}, CounterHelp, {'t', 'i', 'e'});
  }

  /** Every gauge field feeds a gauge metric. */
  lemma GaugeTargetsHaveHelp()
    ensures forall f :: f in GaugeFields ==> GaugeFields[f] in GaugeHelp
  {
    assert forall f :: f in GaugeFields ==> GaugeFields[f] in PowerGaugeHelp || GaugeFields[f] in LineGaugeHelp;
  }

  /** Every counter field feeds a counter metric. */
  lemma CounterTargetsHaveHelp()
    ensures forall f :: f in CounterFields ==> CounterFields[f] in CounterHelp
  {
    assert forall f :: f in CounterFields ==> CounterFields[f] in TotalHelp || CounterFields[f] in FlowHelp;
  }

  /** Every metric key the two field tables feed has a descriptor in `descs`. */
  ghost predicate FieldsCovered(descs: map<string, Desc>)
  {
    && (forall f :: f in GaugeFields ==> GaugeFields[f] in descs)
    && (forall f :: f in CounterFields ==> CounterFields[f] in descs)
  }

  /** Each descriptor is named after its key, in the exporter's namespace, and labelled by device and display name. */
  ghost predicate WellNamed(descs: map<string, Desc>)
  {
    forall k :: k in descs ==> descs[k].fqName == Namespace + k && descs[k].labels == ["device", "name"]
  }

  /**
   * The catalogue covers the field tables: every gauge field feeds a gauge
   * metric and every counter field a counter metric, each with a descriptor.
   */
  lemma TablesCovered(descs: map<string, Desc>)
    requires IsCatalogue(descs)
    ensures FieldsCovered(descs)
    ensures forall f :: f in GaugeFields ==> GaugeFields[f] in GaugeHelp
    ensures forall f :: f in CounterFields ==> CounterFields[f] in CounterHelp
  {
    GaugeTargetsHaveHelp();
    CounterTargetsHaveHelp();
  }

  lemma PowerGaugeHelpSize() ensures |PowerGaugeHelp| == 9 { }
  lemma LineGaugeHelpSize() ensures |LineGaugeHelp| == 9 { }
  lemma TotalHelpSize() ensures |TotalHelp| == 4 { }
  lemma FlowHelpSize() ensures |FlowHelp| == 8 { }

  lemma GaugeHelpHalvesDisjoint()
    ensures PowerGaugeHelp.Keys !! LineGaugeHelp.Keys
  {
    PowerGaugeInitials();
    LineGaugeInitials();
    DisjointByInitials(PowerGaugeHelp, {'f', 'p', 'a'}, LineGaugeHelp, {'v', 'c', 'r'});
  }

  lemma CounterHelpHalvesDisjoint()
    ensures TotalHelp.Keys !! FlowHelp.Keys
  {
    TotalInitials();
    FlowInitials();
    DisjointByInitials(TotalHelp, {'t'}, FlowHelp, {'i', 'e'});
  }

  /** The size of a union of maps with disjoint keys. */
  lemma DisjointUnionSize(m1: map<string, string>, m2: map<string, string>)
    requires m1.Keys !! m2.Keys
    ensures |m1 + m2| == |m1| + |m2|
  {
    assert (m1 + m2).Keys == m1.Keys + m2.Keys;
  }

  /** A map keyed by the disjoint union of two key sets has as many entries as both together. */
  lemma KeyedByDisjointUnion<V>(d: map<string, V>, g: map<string, string>, c: map<string, string>)
    requires d.Keys == g.Keys + c.Keys && g.Keys !! c.Keys
    ensures |d| == |g| + |c|
  {
    assert |d.Keys| == |g.Keys + c.Keys|;
  }

  /** Eighteen gauges. */
  lemma GaugeHelpSize()
    ensures |GaugeHelp| == 18
  {
    PowerGaugeHelpSize();
    LineGaugeHelpSize();
    GaugeHelpHalvesDisjoint();
    DisjointUnionSize(PowerGaugeHelp, LineGaugeHelp);
  }

  /** Twelve counters. */
  lemma CounterHelpSize()
    ensures |CounterHelp| == 12
  {
    TotalHelpSize();
    FlowHelpSize();
    CounterHelpHalvesDisjoint();
    DisjointUnionSize(TotalHelp, FlowHelp);
  }

  /** Thirty descriptors. */
  lemma CatalogueSize(descs: map<string, Desc>)
    requires IsCatalogue(descs)
    ensures |descs| == 30
  {
    HelpTablesDisjoint();
    GaugeHelpSize();
    CounterHelpSize();
    KeyedByDisjointUnion(descs, GaugeHelp, CounterHelp);
  }

  /** Every descriptor of the catalogue is named after its key and labelled by device and display name. */
  lemma CatalogueNames(descs: map<string, Desc>)
    requires IsCatalogue(descs)
    ensures WellNamed(descs)
  {
  }
}
