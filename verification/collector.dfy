/**
 * The scrape-and-map collector: on each scrape it fetches the upstream
 * meter snapshot and turns every known, coercible field of every device
 * into one gauge or counter sample labelled with the device id and its
 * display name.
 *
 * The HTTP client is the parameter `get`, whose outcome (transport error,
 * status and body) is an input; `strconv.ParseFloat` is the parameter
 * `parse`; reading and decoding the device configuration file is the
 * parameter `readConfig`.
 */
module Collector {

  import opened Wrappers
  import opened Text
  import opened Catalogue
  import opened Coercion
  import opened DeviceNames

  /** The decoded JSON snapshot: device id to field name to value. */
  type Data = map<string, map<string, Value>>

  /** What reading and decoding the response body gave. */
  datatype Body =
    | ReadError
    | Undecodable
    | Decoded(data: Data)

  /** Outcome of the HTTP GET. */
  datatype Fetch =
    | TransportError
    | Response(status: int, body: Body)

  /** One emitted metric: its descriptor, kind, the two label values and the value. */
  datatype Sample = Sample(desc: Desc, kind: Kind, device: string, name: string, value: real)

  /** Path of the upstream endpoint holding the latest reading of every device. */
  const ApiPath: string := "/api/last"

  /** Device configuration read when none is given. */
  const DefaultConfigPath: string := "/etc/mbmd.yaml"

  predicate IsSlash(c: char)
  {
    c == '/'
  }

  /** The configuration file actually read: the given path, or the default one when it is empty. */
  function ConfigPath(yamlPath: string): (p: string)
    ensures p != ""
    ensures yamlPath != "" ==> p == yamlPath
    ensures yamlPath == "" ==> p == DefaultConfigPath
  {
    if yamlPath == "" then DefaultConfigPath else yamlPath
  }

  /**
   * The scrape address for a configured base URL: the base without its
   * trailing slashes, then the endpoint path.
   */
  function RequestURL(base: string): (url: string)
    ensures |ApiPath| <= |url| <= |base| + |ApiPath| && url[|url| - |ApiPath|..] == ApiPath
    ensures var b := url[..|url| - |ApiPath|];
      && b == base[..|b|]
      && (b != "" ==> b[|b| - 1] != '/')
      && (forall i :: |b| <= i < |base| ==> base[i] == '/')
  {
    var b := TrimRight(base, IsSlash);
    assert (b + ApiPath)[..|b|] == b;
    b + ApiPath
  }

  /** Trailing slashes on the base URL do not change the scrape address. */
  lemma TrailingSlashIgnored(base: string)
    ensures RequestURL(base + "/") == RequestURL(base)
  {
    assert (base + "/")[..|base|] == base;
  }

  /** The snapshot a fetch delivers: only a 2xx response whose body was read and decoded has one. */
  function Snapshot(f: Fetch): (s: Option<Data>)
    ensures s.Some? <==> f.Response? && 200 <= f.status < 300 && f.body.Decoded?
    ensures s.Some? ==> s.value == f.body.data
  {
    if f.TransportError? then None
    else if f.status < 200 || f.status >= 300 then None
    else if !f.body.Decoded? then None
    else Some(f.body.data)
  }

  /**
   * The sample one table contributes for `field` of a device: present when
   * the table maps the field to a metric key, the device reports the field,
   * its value coerces and the key has a descriptor.
   */
  function TableSample(table: map<string, string>, kind: Kind, descs: map<string, Desc>,
                       device: string, pretty: string, values: map<string, Value>,
                       field: string, parse: string -> Option<real>): (s: Option<Sample>)
    ensures s.Some? <==> field in table && field in values && ToFloat(values[field], parse).Some? && table[field] in descs
    ensures s.Some? ==>
      && s.value.desc == descs[table[field]] && s.value.kind == kind
      && s.value.device == device && s.value.name == pretty
      && Some(s.value.value) == ToFloat(values[field], parse)
  {
    if field in table && field in values && ToFloat(values[field], parse).Some? && table[field] in descs then
      Some(Sample(descs[table[field]], kind, device, pretty, ToFloat(values[field], parse).value))
    else None
  }

  /** The sample a scrape emits for `field` of device `device`, if any. */
  function SampleFor(descs: map<string, Desc>, names: map<string, string>, device: string,
                     values: map<string, Value>, field: string, parse: string -> Option<real>): (s: Option<Sample>)
    ensures s.Some? ==> Target(field).Some? && s.value.kind == Target(field).value.1
  {
    SampleFrom(GaugeFields, CounterFields, descs, names, device, values, field, parse)
  }

  /** `SampleFor` over any gauge and counter field tables: the gauge table first, then the counter table. */
  function SampleFrom(gauges: map<string, string>, counters: map<string, string>, descs: map<string, Desc>,
                      names: map<string, string>, device: string, values: map<string, Value>, field: string,
                      parse: string -> Option<real>): (s: Option<Sample>)
    ensures s.Some? ==> (field in gauges || field in counters) && field in values
    ensures s.Some? ==>
      && s.value.device == device && s.value.name == DisplayName(device, names)
      && (s.value.kind == Gauge <==> field in gauges)
  {
    var pretty := DisplayName(device, names);
    if field in gauges then TableSample(gauges, Gauge, descs, device, pretty, values, field, parse)
    else TableSample(counters, Counter, descs, device, pretty, values, field, parse)
  }

  /** Adds a descriptor for every key of a help table (the two loops of `NewMBMDCollector`). */
  method AddDescs(descs: map<string, Desc>, help: map<string, string>) returns (r: map<string, Desc>)
    ensures r.Keys == descs.Keys + help.Keys
    ensures forall k :: k in help ==> r[k] == DescFor(k, help[k])
    ensures forall k :: k in descs && k !in help ==> r[k] == descs[k]
  {
    r := descs;
    var todo := help.Keys;
    while todo != {}
      invariant todo <= help.Keys
      invariant r.Keys == descs.Keys + (help.Keys - todo)
      invariant forall k :: k in help && k !in todo ==> r[k] == DescFor(k, help[k])
      invariant forall k :: k in descs && k !in help ==> r[k] == descs[k]
      decreases todo
    {
      var k :| k in todo;
      todo := todo - {k};
      r := r[k := DescFor(k, help[k])];
    }
  }

  /** Adding the gauges and then the counters to an empty map builds exactly the catalogue. */
  lemma BuildsCatalogue(gauges: map<string, Desc>, all: map<string, Desc>)
    requires gauges.Keys == GaugeHelp.Keys && forall k :: k in GaugeHelp ==> gauges[k] == DescFor(k, GaugeHelp[k])
    requires all.Keys == gauges.Keys + CounterHelp.Keys
    requires forall k :: k in CounterHelp ==> all[k] == DescFor(k, CounterHelp[k])
    requires forall k :: k in gauges && k !in CounterHelp ==> all[k] == gauges[k]
    ensures IsCatalogue(all)
  {
    HelpTablesDisjoint();
  }

  class MBMDCollector {
    /** The base URL without trailing slashes. */
    const baseURL: string
    /** Metric key to descriptor. */
    const descs: map<string, Desc>
    /** Configured device id, in decimal, to display name. */
    const deviceNameMap: map<string, string>

    /** The descriptor map is the fixed catalogue. */
    ghost predicate Valid()
    {
      IsCatalogue(descs)
    }

    /**
     * `NewMBMDCollector`: trims the base URL, loads the name map from the
     * configuration (falling back to the default path) and registers the
     * whole catalogue. The request timeout is not modelled.
     */
    constructor (base: string, yamlPath: string, readConfig: string -> ConfigRead)
      ensures Valid()
      ensures baseURL + ApiPath == RequestURL(base)
      ensures !readConfig(ConfigPath(yamlPath)).Parsed? ==> deviceNameMap == map[]
      ensures readConfig(ConfigPath(yamlPath)).Parsed? ==>
        IsNameMap(deviceNameMap, readConfig(ConfigPath(yamlPath)).devices)
    {
      var names := LoadDeviceNameMap(readConfig(ConfigPath(yamlPath)));
      var gauges := AddDescs(map[], GaugeHelp);
      var all := AddDescs(gauges, CounterHelp);
      BuildsCatalogue(gauges, all);
      baseURL := TrimRight(base, IsSlash);
      descs := all;
      deviceNameMap := names;
    }

    /**
     * One of the two inner loops of `Collect`: for every field of `table`
     * that the device reports, that coerces and whose metric has a
     * descriptor, one sample; a field that fails is skipped without
     * affecting the others. `fields` records which field each sample
     * came from.
     */
    method EmitTable(table: map<string, string>, kind: Kind, device: string, pretty: string,
                     values: map<string, Value>, parse: string -> Option<real>)
      returns (out: seq<Sample>, fields: seq<string>)
      ensures |fields| == |out|
      ensures forall i :: 0 <= i < |out| ==>
        fields[i] in table && TableSample(table, kind, descs, device, pretty, values, fields[i], parse) == Some(out[i])
      ensures forall i, j :: 0 <= i < j < |fields| ==> fields[i] != fields[j]
      ensures forall f :: TableSample(table, kind, descs, device, pretty, values, f, parse).Some? ==> f in fields
    {
      out, fields := [], [];
      var todo := table.Keys;
      while todo != {}
        invariant todo <= table.Keys
        invariant |fields| == |out|
        invariant forall i :: 0 <= i < |out| ==>
          fields[i] in table && fields[i] !in todo
          && TableSample(table, kind, descs, device, pretty, values, fields[i], parse) == Some(out[i])
        invariant forall i, j :: 0 <= i < j < |fields| ==> fields[i] != fields[j]
        invariant forall f :: f !in todo && TableSample(table, kind, descs, device, pretty, values, f, parse).Some? ==> f in fields
        decreases todo
      {
        var key :| key in todo;
        todo := todo - {key};
        if key in values {
          var v := ToFloat(values[key], parse);
          if v.Some? && table[key] in descs {
            out := out + [Sample(descs[table[key]], kind, device, pretty, v.value)];
            fields := fields + [key];
          }
        }
      }
    }

    /** The body of the device loop of `Collect`: the gauge fields, then the counter fields. */
    method EmitDevice(device: string, values: map<string, Value>, parse: string -> Option<real>)
      returns (out: seq<Sample>, fields: seq<string>)
      ensures |fields| == |out|
      ensures forall i :: 0 <= i < |out| ==> SampleFor(descs, deviceNameMap, device, values, fields[i], parse) == Some(out[i])
      ensures forall i, j :: 0 <= i < j < |fields| ==> fields[i] != fields[j]
      ensures forall f :: SampleFor(descs, deviceNameMap, device, values, f, parse).Some? ==> f in fields
    {
      var pretty := DisplayName(device, deviceNameMap);
      var gauges, gaugeFields := EmitTable(GaugeFields, Gauge, device, pretty, values, parse);
      var counters, counterFields := EmitTable(CounterFields, Counter, device, pretty, values, parse);
      FieldTablesDisjoint();
      out := gauges + counters;
      fields := gaugeFields + counterFields;
      forall i | 0 <= i < |out|
        ensures SampleFor(descs, deviceNameMap, device, values, fields[i], parse) == Some(out[i])
      {
        if i >= |gauges| {
          assert fields[i] == counterFields[i - |gauges|];
          assert fields[i] in CounterFields;
        }
      }
      forall i, j | 0 <= i < j < |fields|
        ensures fields[i] != fields[j]
      {
        if i < |gaugeFields| && j >= |gaugeFields| {
          assert fields[i] in GaugeFields && fields[j] in CounterFields;
        }
      }
    }

    /** Every sample comes from the device and field its origin names, and matches `SampleFor` there. */
    ghost predicate Sound(data: Data, samples: seq<Sample>, origins: seq<(string, string)>, parse: string -> Option<real>)
    {
      && |origins| == |samples|
      && forall i :: 0 <= i < |samples| ==>
           && origins[i].0 in data
           && SampleFor(descs, deviceNameMap, origins[i].0, data[origins[i].0], origins[i].1, parse) == Some(samples[i])
    }

    /** Every device in `devices` has all its samples among `origins`. */
    ghost predicate Complete(data: Data, devices: set<string>, origins: seq<(string, string)>, parse: string -> Option<real>)
    {
      forall d, f :: d in data && d in devices && SampleFor(descs, deviceNameMap, d, data[d], f, parse).Some? ==> (d, f) in origins
    }

    /**
     * `Collect`: fetches the scrape address; without a snapshot (transport
     * error, status outside 200..299, unreadable or undecodable body) it
     * emits nothing. Otherwise it emits exactly the samples `SampleFor`
     * gives, one per device and field: `origins` names the device and
     * field of each sample, no pair occurs twice and no pair with a sample
     * is missing.
     */
    method Collect(get: string -> Fetch, parse: string -> Option<real>)
      returns (samples: seq<Sample>, ghost origins: seq<(string, string)>)
      ensures |origins| == |samples|
      ensures Snapshot(get(baseURL + ApiPath)).None? ==> samples == []
      ensures Snapshot(get(baseURL + ApiPath)).Some? ==>
        var data := Snapshot(get(baseURL + ApiPath)).value;
        && Sound(data, samples, origins, parse)
        && Distinct(origins)
        && Complete(data, data.Keys, origins, parse)
    {
      samples, origins := [], [];
      var snapshot := Snapshot(get(baseURL + ApiPath));
      if snapshot.None? {
        return;
      }
      var data := snapshot.value;
      var todo := data.Keys;
      while todo != {}
        invariant todo <= data.Keys
        invariant Sound(data, samples, origins, parse)
        invariant forall i :: 0 <= i < |origins| ==> origins[i].0 !in todo
        invariant Distinct(origins)
        invariant Complete(data, data.Keys - todo, origins, parse)
        decreases todo
      {
        var device :| device in todo;
        var out, fields := EmitDevice(device, data[device], parse);
        ghost var pairs := Tagged(device, fields);
        AppendDevice(data, todo, device, samples, origins, out, fields, parse);
        todo := todo - {device};
        samples := samples + out;
        origins := origins + pairs;
      }
    }

    /**
     * The catalogue-level emission rule for a sound scrape: each sample is
     * the metric its field feeds, named `mbmd_<key>` and labelled by device
     * and display name, of the kind of the field's table; it carries the
     * device id and display name and the field's coerced value.
     */
    lemma CatalogueSamples(data: Data, samples: seq<Sample>, origins: seq<(string, string)>, parse: string -> Option<real>)
      requires Valid()
      requires Sound(data, samples, origins, parse)
      ensures forall i :: 0 <= i < |samples| ==>
        && Target(origins[i].1).Some?
        && samples[i].desc.fqName == Namespace + Target(origins[i].1).value.0
        && samples[i].desc.labels == ["device", "name"]
        && samples[i].kind == Target(origins[i].1).value.1
        && samples[i].device == origins[i].0
        && samples[i].name == DisplayName(origins[i].0, deviceNameMap)
        && origins[i].1 in data[origins[i].0]
        && Some(samples[i].value) == ToFloat(data[origins[i].0][origins[i].1], parse)
    {
      TablesCovered(descs);
      CatalogueNames(descs);
      forall i | 0 <= i < |samples|
        ensures Target(origins[i].1).Some?
        ensures samples[i].desc.fqName == Namespace + Target(origins[i].1).value.0
        ensures samples[i].desc.labels == ["device", "name"]
        ensures samples[i].kind == Target(origins[i].1).value.1
        ensures samples[i].device == origins[i].0
        ensures samples[i].name == DisplayName(origins[i].0, deviceNameMap)
        ensures origins[i].1 in data[origins[i].0]
        ensures Some(samples[i].value) == ToFloat(data[origins[i].0][origins[i].1], parse)
      {
        var (d, f) := origins[i];
        EmittedDesc(descs, deviceNameMap, d, data[d], f, parse);
        EmittedLabels(descs, deviceNameMap, d, data[d], f, parse);
      }
    }

    /** Appending one more device's samples keeps the scrape sound, duplicate-free and complete so far. */
    lemma AppendDevice(data: Data, todo: set<string>, device: string, samples: seq<Sample>,
                       origins: seq<(string, string)>, out: seq<Sample>, fields: seq<string>,
                       parse: string -> Option<real>)
      requires device in todo && todo <= data.Keys
      requires Sound(data, samples, origins, parse)
      requires forall i :: 0 <= i < |origins| ==> origins[i].0 !in todo
      requires Distinct(origins)
      requires Complete(data, data.Keys - todo, origins, parse)
      requires |fields| == |out|
      requires forall i :: 0 <= i < |out| ==> SampleFor(descs, deviceNameMap, device, data[device], fields[i], parse) == Some(out[i])
      requires forall i, j :: 0 <= i < j < |fields| ==> fields[i] != fields[j]
      requires forall f :: SampleFor(descs, deviceNameMap, device, data[device], f, parse).Some? ==> f in fields
      ensures Sound(data, samples + out, origins + Tagged(device, fields), parse)
      ensures forall i :: 0 <= i < |origins + Tagged(device, fields)| ==> (origins + Tagged(device, fields))[i].0 !in todo - {device}
      ensures Distinct(origins + Tagged(device, fields))
      ensures Complete(data, data.Keys - (todo - {device}), origins + Tagged(device, fields), parse)
    {
      var pairs := Tagged(device, fields);
      var all := origins + pairs;
      forall i | 0 <= i < |samples + out|
        ensures all[i].0 in data
        ensures SampleFor(descs, deviceNameMap, all[i].0, data[all[i].0], all[i].1, parse) == Some((samples + out)[i])
      {
        if i >= |samples| {
          assert all[i] == pairs[i - |samples|];
        }
      }
      forall i, j | 0 <= i < j < |all|
        ensures all[i] != all[j]
      {
        if i < |origins| && j >= |origins| {
          assert all[j].0 == device;
        }
      }
      forall d, f | d in data && d in data.Keys - (todo - {device}) && SampleFor(descs, deviceNameMap, d, data[d], f, parse).Some?
        ensures (d, f) in all
      {
        if d == device {
          var j :| 0 <= j < |fields| && fields[j] == f;
          assert all[|origins| + j] == (device, f);
        }
      }
    }
  }

  /** No device and field pair occurs twice. */
  ghost predicate Distinct(origins: seq<(string, string)>)
  {
    forall i, j :: 0 <= i < j < |origins| ==> origins[i] != origins[j]
  }

  /** Each field paired with the device it belongs to. */
  function Tagged(device: string, fields: seq<string>): (pairs: seq<(string, string)>)
    ensures |pairs| == |fields|
    ensures forall j :: 0 <= j < |fields| ==> pairs[j] == (device, fields[j])
  {
    seq(|fields|, j requires 0 <= j < |fields| => (device, fields[j]))
  }

  /**
   * The emission rule over the catalogue: a field of a device yields a
   * sample exactly when the field is a gauge or counter field, the device
   * reports it and its value coerces — the "unknown descriptor" case never
   * arises.
   */
  lemma EmissionRule(descs: map<string, Desc>, names: map<string, string>, device: string,
                     values: map<string, Value>, field: string, parse: string -> Option<real>)
    requires FieldsCovered(descs)
    ensures SampleFor(descs, names, device, values, field, parse).Some? <==>
      (field in GaugeFields || field in CounterFields) && field in values && ToFloat(values[field], parse).Some?
  {
    FieldTablesDisjoint();
    EmissionFrom(GaugeFields, CounterFields, descs, names, device, values, field, parse);
  }

  /**
   * An emitted sample carries the descriptor of the field's metric, with
   * its fully qualified name and the two labels, and the kind of the
   * field's table.
   */
  lemma EmittedDesc(descs: map<string, Desc>, names: map<string, string>, device: string,
                    values: map<string, Value>, field: string, parse: string -> Option<real>)
    requires FieldsCovered(descs) && WellNamed(descs)
    requires SampleFor(descs, names, device, values, field, parse).Some?
    ensures Target(field).Some?
    ensures var s, key := SampleFor(descs, names, device, values, field, parse).value, Target(field).value.0;
      && key in descs
      && s.desc == descs[key]
      && s.desc.fqName == Namespace + key
      && s.desc.labels == ["device", "name"]
      && s.kind == Target(field).value.1
  {
    FieldTablesDisjoint();
    EmissionFrom(GaugeFields, CounterFields, descs, names, device, values, field, parse);
  }

  /** An emitted sample is labelled with the device id and its display name and holds the coerced value. */
  lemma EmittedLabels(descs: map<string, Desc>, names: map<string, string>, device: string,
                      values: map<string, Value>, field: string, parse: string -> Option<real>)
    requires FieldsCovered(descs)
    requires SampleFor(descs, names, device, values, field, parse).Some?
    ensures field in values
    ensures var s := SampleFor(descs, names, device, values, field, parse).value;
      && s.device == device
      && s.name == DisplayName(device, names)
      && Some(s.value) == ToFloat(values[field], parse)
  {
    FieldTablesDisjoint();
    EmissionFrom(GaugeFields, CounterFields, descs, names, device, values, field, parse);
  }

  /**
   * The emission rule for any two disjoint field tables whose metric keys
   * all have descriptors.
   */
  lemma EmissionFrom(gauges: map<string, string>, counters: map<string, string>, descs: map<string, Desc>,
                     names: map<string, string>, device: string, values: map<string, Value>, field: string,
                     parse: string -> Option<real>)
    requires gauges.Keys !! counters.Keys
    requires forall f :: f in gauges ==> gauges[f] in descs
    requires forall f :: f in counters ==> counters[f] in descs
    ensures SampleFrom(gauges, counters, descs, names, device, values, field, parse).Some? <==>
      (field in gauges || field in counters) && field in values && ToFloat(values[field], parse).Some?
    ensures SampleFrom(gauges, counters, descs, names, device, values, field, parse).Some? ==>
      var s := SampleFrom(gauges, counters, descs, names, device, values, field, parse).value;
      && s.desc == descs[if field in gauges then gauges[field] else counters[field]]
      && (s.kind == Gauge <==> field in gauges)
      && s.device == device
      && s.name == DisplayName(device, names)
      && Some(s.value) == ToFloat(values[field], parse)
  {
  }

  /** Whatever another field of the device holds, it does not affect this field's sample. */
  lemma FieldsIndependent(descs: map<string, Desc>, names: map<string, string>, device: string,
                          values: map<string, Value>, other: string, v: Value, field: string,
                          parse: string -> Option<real>)
    requires other != field
    ensures SampleFor(descs, names, device, values[other := v], field, parse)
         == SampleFor(descs, names, device, values, field, parse)
    ensures SampleFor(descs, names, device, values - {other}, field, parse)
         == SampleFor(descs, names, device, values, field, parse)
  {
  }
}
