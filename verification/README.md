# mbmd-exporter in Dafny

The mbmd exporter reads the latest readings of a set of energy meters from
an upstream mbmd daemon (`GET <base>/api/last`). It exposes them to
Prometheus as gauges and counters, labelled with the raw device id and a
display name taken from the mbmd device configuration. An optional bridge
announces the same meters to Home Assistant over MQTT discovery. The bridge
keeps a cache of every announcement and republishes the cache after each
(re)connect.

This project models the two parts that carry the logic:

- **The scrape-and-map collector** (`collector.go`), in modules
  `Catalogue`, `Coercion`, `DeviceNames` and `Collector`:
  - the fixed catalogue of 30 metric descriptors;
  - the coercion of a decoded JSON value to a float;
  - the device-id-to-name map read from the configuration;
  - the class `MBMDCollector`, whose constructor fills the descriptor map
    in two loops and whose `Collect` method walks every device and both
    field tables, emitting one sample per coercible known field.
- **The discovery bridge** (`hass.go`), in modules `Topics`, `Discovery`
  and `Bridge`:
  - the classification of an inbound meter topic;
  - the entity name, unique id, config topic and payload record built for
    an accepted one;
  - the class `DiscoveryBridge`, which holds the discovery cache, the
    publishes handed to the MQTT client and the subscriptions made. Its
    message handler and connect handler are methods.

`Text` holds the parts of Go's `strings` and `strconv` packages that the
two files rely on. `Wrappers` holds the `Option` type used for Go's
`(value, ok)` results.

The outside world enters as parameters:

- The HTTP GET is `get: string -> Fetch`, whose value is the transport
  error, or the status together with the read-and-decoded body.
- `strconv.ParseFloat` is `parse: string -> Option<real>`.
- Reading and YAML-decoding the configuration file is
  `readConfig: string -> ConfigRead`.

Floats are `real`. Emitted samples are a returned sequence rather than
sends on a Prometheus channel. MQTT publishes are appended to the bridge's
`outbox`.

The central invariant of the bridge is `Bridge.Consistent`:

- the retained messages a broker holds after the `outbox` (per topic, the
  last retained publish) are exactly the cache;
- every cached payload is what its own state topic announces.

Both handlers keep this invariant. A reconnect republishes every cache
entry exactly once and leaves the broker's view unchanged.

Two naming collisions of the source are kept and proved: inbound topics
whose phases differ only in letter case, or whose devices differ only in
`.` against `-`, are announced under one config topic and unique id, so
their announcements replace each other in the cache.

## Model

| member | source | states |
|---|---|---|
| `Catalogue.DescFor` | collector.go:74-89 | A registered descriptor is named `mbmd_` followed by its key and carries the labels `device`, `name` |
| `Catalogue.Target` | collector.go:125-159 | A field has a target metric exactly when it is in the gauge or the counter table, and the target comes from that table with that table's kind |
| `Catalogue.FieldTablesDisjoint` | collector.go:125-159 | No upstream field is in both the gauge and the counter table, so no field is emitted twice |
| `Catalogue.HelpTablesDisjoint` | collector.go:38-72 | No metric key is both a gauge and a counter |
| `Catalogue.GaugeTargetsHaveHelp` | collector.go:38-57 | Every gauge field feeds a metric that has gauge help text |
| `Catalogue.CounterTargetsHaveHelp` | collector.go:59-72 | Every counter field feeds a metric that has counter help text |
| `Catalogue.TablesCovered` | collector.go:179-183 | In the registered catalogue every metric key a field table names has a descriptor, so the "unknown desc" branch is unreachable |
| `Catalogue.GaugeHelpSize` | collector.go:38-57 | There are 18 distinct gauge keys |
| `Catalogue.CounterHelpSize` | collector.go:59-72 | There are 12 distinct counter keys |
| `Catalogue.CatalogueSize` | collector.go:38-89 | The registered catalogue holds exactly 30 descriptors |
| `Catalogue.CatalogueNames` | collector.go:74-89 | Every registered descriptor is `mbmd_` plus its own key, labelled by device and name |
| `Coercion.NumbersCoerce` | collector.go:205-213 | float64, float32, int and int64 values coerce to their own value, whatever the parser does |
| `Coercion.ToFloat` | collector.go:204-226 | A value coerces exactly when it is a number, or a non-empty string whose white-space-trimmed form parses; a string then coerces to the parsed value |
| `Coercion.BlankStringFails` | collector.go:214-222 | A string of white space only is rejected when the parser rejects the empty string |
| `Coercion.PaddedNumber` | collector.go:218 | White space around a number in a string does not change what it coerces to |
| `Coercion.OtherFails` | collector.go:215-216 | Any other shape, and the empty string, is rejected |
| `DeviceNames.ExtractID` | collector.go:232-241 | The id is the text after the last `.` (possibly empty), and empty when there is no `.` |
| `DeviceNames.ExtractAfterDot` | collector.go:236-240 | The id of `prefix.suffix`, for a suffix without `.`, is the suffix |
| `DeviceNames.DisplayName` | collector.go:161-167 | A device whose id is empty or not in the name map is shown with the empty name; a non-empty name is the map's entry for the device's id |
| `DeviceNames.LoadDeviceNameMap` | collector.go:243-266 | A failed read or parse gives the empty map; otherwise each decimal device id maps to the name of the last entry with that id |
| `DeviceNames.LastNameForIdDefined` | collector.go:262-265 | The name map has an entry for a decimal id exactly when some configured device has that id |
| `DeviceNames.LastNameForIdIsLast` | collector.go:262-265 | A later entry with the same id overrides an earlier one: the map holds the last configured name |
| `DeviceNames.ConfiguredDisplayName` | collector.go:162-168 | A device `<prefix>.<id>` whose id is configured is shown with the last configured name for that id |
| `DeviceNames.NoDotNoName` | collector.go:162-168 | A device id without `.` never gets a display name |
| `DeviceNames.KitchenExample` | collector.go:162-168 | `this.2` is shown as `Kitchen` when id 2 is named `Kitchen` |
| `Collector.ConfigPath` | collector.go:33-35 | The configuration read is the given path, or `/etc/mbmd.yaml` when the path is empty |
| `Collector.RequestURL` | collector.go:27-101 | The scrape address is the base URL with its trailing slashes removed (line 27, at construction), followed by `/api/last` (line 101, in `Collect`) |
| `Collector.TrailingSlashIgnored` | collector.go:27 | A trailing slash on the base URL does not change the scrape address |
| `Collector.Snapshot` | collector.go:102-123 | Only a response with a 2xx status whose body was read and decoded yields data; every other outcome yields none |
| `Collector.AddDescs` | collector.go:74-89 | One descriptor loop adds exactly the table's keys, each with its descriptor, and keeps every other entry |
| `Collector.BuildsCatalogue` | collector.go:74-89 | Running the gauge loop and then the counter loop from an empty map builds exactly the catalogue |
| `Collector.TableSample` | collector.go:169-183 | One table field yields a sample exactly when the table has it, the device reports it, its value coerces and its metric has a descriptor; the sample carries that descriptor, the table's kind, the raw device id, the display name and the coerced value |
| `Collector.SampleFrom` | collector.go:160-199 | A sample for a field comes from a field in one of the two tables that the device reports, is labelled with the raw device id and its display name, and is a gauge exactly when the field is in the gauge table |
| `Collector.SampleFor` | collector.go:160-199 | A sample for a field exists only for a field with a target metric, and has that target's kind |
| `Collector.MBMDCollector.constructor` | collector.go:25-92 | The base URL is trimmed, the name map is loaded from the configured or default path (empty on failure), and the descriptor map is the catalogue |
| `Collector.MBMDCollector.EmitTable` | collector.go:170-184 | One table loop emits one sample for each table field the device reports that coerces and has a descriptor, once each; it skips the other fields without affecting the rest |
| `Collector.MBMDCollector.EmitDevice` | collector.go:161-200 | For one device, the gauge loop and then the counter loop emit exactly the samples the emission rule gives, one per field |
| `Collector.MBMDCollector.Collect` | collector.go:100-202 | Without a snapshot nothing is emitted. Otherwise every sample matches the emission rule for its device and field, no device and field pair occurs twice, and no pair with a sample is missing |
| `Collector.MBMDCollector.AppendDevice` | collector.go:161-201 | Appending one device's samples keeps the scrape sound, duplicate-free and complete for the devices done so far |
| `Collector.MBMDCollector.CatalogueSamples` | collector.go:160-199 | Every sample of a sound scrape comes from a field with a target metric: its descriptor is `mbmd_` plus that metric's key with labels `device`, `name`, its kind is the target's, it is labelled with its device and display name, the device reports the field and the value is the field's coerced value |
| `Collector.EmissionRule` | collector.go:170-200 | A field yields a sample exactly when it is a gauge or counter field, the device reports it and its value coerces |
| `Collector.EmittedDesc` | collector.go:179-180 | An emitted sample carries the descriptor of the field's metric, named `mbmd_<key>` with labels `device`, `name`, and the kind of the field's table |
| `Collector.EmittedLabels` | collector.go:180 | An emitted sample is labelled with the raw device id and its display name, and holds the coerced value |
| `Collector.EmissionFrom` | collector.go:170-200 | For any two disjoint field tables whose metrics all have descriptors, a field yields a sample exactly when it is in a table, reported and coercible. The sample has that table's kind and descriptor |
| `Collector.FieldsIndependent` | collector.go:171-178 | Changing or removing one field of a device never changes the sample of another field |
| `Topics.Classify` | hass.go:51-76 | An accepted topic has a known kind with its lookup entry, a device other than `status`, a phase that is not `T<digits>`, and segments free of `/` |
| `Topics.ClassifyParts` | hass.go:53-76 | An accepted segment list has at least four segments, and the device, kind and phase are segments 2 to 4 |
| `Topics.FewSlashesTooShort` | hass.go:52-55 | A topic with fewer than three `/` is dropped as too short |
| `Topics.Decision` | hass.go:56-76 | A topic `root/device/kind/phase[/extra…]` is accepted exactly when the extra part is empty or a single empty segment, the device is not `status`, the phase is not `T<digits>` and the kind is known. Non-empty extra path is always dropped as such; `status` is dropped as a status device |
| `Topics.RootIgnored` | hass.go:56-58 | The first segment of a topic never affects the decision |
| `Topics.TNumberExamples` | hass.go:70-72 | `T1` and `T20` match `^T\d+$`; `T`, `t1`, `T1a` and the empty phase do not |
| `Topics.AcceptedExample` | hass.go:51-76 | `mbmd/this.1/Power/L1` is accepted as a power reading in W of device `this.1`, phase `L1` |
| `Topics.TrailingSlashExample` | hass.go:59-66 | `mbmd/this.1/Power/L1/` is accepted: the single empty extra segment joins to the empty string |
| `Topics.StatusExample` | hass.go:67-69 | `mbmd/status/Power/L1` is dropped |
| `Topics.ExtraPathExample` | hass.go:59-66 | `mbmd/this.1/Power/L1/x` is dropped as extra path |
| `Discovery.Dashed` | hass.go:95 | The dashed device id has the same length and no `.`: each `.` becomes `-` and every other character is kept in place |
| `Discovery.Suffix` | hass.go:84 | The per-entity suffix is no longer than kind, `-` and phase together, and holds no `.` and no upper-case ASCII letter |
| `Discovery.EntityName` | hass.go:78-83 | The entity name is the kind, a space, and the phase, or `Total` when the phase is empty |
| `Discovery.UniqueId` | hass.go:84 | The unique id is longer than its fixed prefix and holds no `.` |
| `Discovery.UniqueIdPrefixed` | hass.go:84 | Every unique id starts with `mbmd-exporter-bridge_` |
| `Discovery.ConfigTopic` | hass.go:106 | The config topic is longer than its fixed prefix and `/config` together |
| `Discovery.ConfigTopicFramed` | hass.go:106 | Every config topic starts with `homeassistant/sensor/mbmd-exporter-bridge-` and ends in `/config` |
| `Discovery.PayloadFor` | hass.go:86-103 | The payload points back at the inbound topic, expires after 60 s, names the dashed device and the `mbmd` manufacturer, and has a unit exactly when the kind has one, that unit |
| `Discovery.Announce` | hass.go:50-112 | An announcement is retained at QoS 0 and points back at the topic it announces |
| `Discovery.SuffixOfPlainParts` | hass.go:84 | For a kind that does not start with `-` and a non-empty phase that does not end with `-`, the suffix is `kind-phase` with `.` made `-`, lower-cased |
| `Discovery.SuffixWindow` | hass.go:84 | The suffix is the stretch of `kind-phase` left after its leading and trailing dashes are trimmed, character by character with `.` made `-` and lower-cased; it ends on a non-dash character |
| `Discovery.TrailingDashExample` | hass.go:84 | A trailing `-` on the phase is trimmed: `Power`, `L1-` has the suffix `power-l1` |
| `Discovery.SuffixOfEmptyPhase` | hass.go:84 | With an empty phase, the trailing `-` is trimmed and the suffix comes from the kind alone |
| `Discovery.ConfigTopicSegments` | hass.go:106 | For segments free of `/`, the config topic splits into exactly `homeassistant`, `sensor`, `mbmd-exporter-bridge-<dashed device>`, the suffix, `config` |
| `Discovery.AnnounceSpec` | hass.go:78-112 | A topic is announced exactly when it is accepted. The message is retained at QoS 0 on the config topic and points back at the inbound topic. It carries the entity name, the unique id, the kind's device and state classes, a 60 s expiry and the `mbmd` device block, and has a unit exactly when the kind has one |
| `Discovery.NamingExample` | hass.go:78-84 | `this.1`, `Power`, `L1` is named `Power L1` with unique id `mbmd-exporter-bridge_this-1_power-l1` |
| `Discovery.ConfigTopicExample` | hass.go:106 | Its config topic is `homeassistant/sensor/mbmd-exporter-bridge-this-1/power-l1/config` |
| `Discovery.TotalExample` | hass.go:78-83 | Example: kind `Sum` with an empty phase is named `Sum Total` |
| `Discovery.UnitExamples` | hass.go:101-103 | `Cosphi` is announced without a unit and `Power` in `W` |
| `Discovery.DashedDevicesShareEntity` | hass.go:84-106 | Any two device ids of equal length that differ only in `.` against `-` get the same config topic and unique id, so their announcements replace each other |
| `Discovery.DashedDevicesExample` | hass.go:84-106 | `this.1` and `this-1` get the same config topic and unique id, whatever the kind and phase |
| `Discovery.PhaseCaseIgnored` | hass.go:84-106 | Phases that differ only in letter case get the same suffix, config topic and unique id, so their announcements replace each other |
| `Discovery.PhaseCaseExample` | hass.go:84-106 | `this.1`, `Power` with phase `L1` and with phase `l1` share config topic and unique id |
| `Bridge.RetainedView` | hass.go:108 | What a broker retains after a run of publishes: per topic, the payload of the last retained publish on it |
| `Bridge.Consistent` | hass.go:108-116 | The broker's retained messages are exactly the cache, and every cached payload is what its own state topic announces |
| `Bridge.RetainedViewAppend` | hass.go:108 | What a broker retains after two runs of publishes is the first run's view overridden topic by topic by the second's |
| `Bridge.RetainedViewTopics` | hass.go:108 | Every retained topic comes from a retained publish of that payload |
| `Bridge.DiscoveryBridge.constructor` | hass.go:47-48 | A fresh bridge has an empty cache, no publishes and no subscriptions, and is consistent |
| `Bridge.DiscoveryBridge.OnMessage` | hass.go:50-117 | An accepted topic appends one retained announcement to the publishes and caches its payload under the config topic. Any other topic changes nothing. Consistency is kept |
| `Bridge.DiscoveryBridge.Publish` | hass.go:108-116 | One retained publish is appended to the publishes and its payload is cached under its topic; subscriptions are unchanged |
| `Bridge.Announcing` | hass.go:108-116 | Publishing an announcement and caching it keeps the broker's retained messages equal to the cache and every entry an announcement of its own state topic |
| `Bridge.CacheAnnouncement` | hass.go:114-116 | Caching an announcement keeps every cached payload the announcement of its own state topic |
| `Bridge.CacheEntry` | hass.go:114-116 | Caching a payload under the config topic its own state topic announces keeps every cached payload an announcement of its own state topic |
| `Bridge.DiscoveryBridge.OnConnect` | hass.go:119-131 | The subscription is made once more and the cache is unchanged. Every cached payload is republished retained at QoS 0 on its topic, once per topic, after the earlier publishes. Consistency is kept |
| `Bridge.DiscoveryBridge.RepublishCache` | hass.go:124-130 | The loop over the cache appends a replay to the publishes in which every cached topic is republished retained at QoS 0 with its cached payload, once; cache and subscriptions are unchanged |
| `Bridge.ReplayStep` | hass.go:125-129 | Republishing one more cached topic extends the replay by exactly that topic's cached payload |
| `Bridge.ReplayDone` | hass.go:124-130 | A finished replay alone makes the broker retain exactly the cache |
| `Bridge.ReplayFinish` | hass.go:124-130 | A finished replay after consistent publishes is a republication of the cache and keeps the publishes consistent |
| `Bridge.ReplayRepublishes` | hass.go:124-130 | A finished replay appended to any earlier publishes is a republication of the cache: once per cached topic, after the earlier publishes |
| `Bridge.ReplayKeepsRetained` | hass.go:124-130 | Republishing the cache does not change what the broker retains |

## Left out

- The HTTP client, its timeout, `io.ReadAll` and `json.Unmarshal` are not modelled. Their combined outcome is the input `Fetch`, and the decoded snapshot is a map of `Value`s.
- `json.Marshal` of the discovery payload is not modelled: the payload is a record, and its field names (`stat_t`, `uniq_id`, …) are not.
- Reading and YAML-decoding the configuration file are not modelled; only their outcome (`ConfigRead`) and the list-to-map fold are.
- `Describe`, `MustNewConstMetric` and the Prometheus channel are not modelled. `Collect` returns the samples as a sequence, in one of the orders Go's map iteration may produce.
- The "unknown desc" print in `Collect` is a skip in the model. `Catalogue.TablesCovered` proves that branch unreachable.
- Logging is not modelled anywhere.
- Floating point is left out. Values are `real`, `strconv.ParseFloat` is an opaque parameter, and the unused `formatFloat` is left out.
- Coercion.NumbersCoerce: a float32, int or int64 value is taken as the exact real it denotes; Go's `int` and `int64` are both 64 bits wide here (collector.go:210-213), and the rounding of a large one to float64 is not modelled.
- The paho MQTT client, its options, reconnect policy and token waiting are not modelled. Every publish handed to the client is recorded in `outbox`, whether or not the broker acknowledged it. A failed publish or subscribe is only logged by the source, so it is not an input.
- Bridge.DiscoveryBridge.OnMessage: the inbound payload is not modelled, because the handler uses it only in a log line.
- The handler that `OnConnect` registers with its subscription is not modelled; `subscriptions` records only the topic filter.
- Bridge.Consistent: the handlers are atomic steps, and the mutex around the cache is not modelled. In the source the message handler publishes (hass.go:108-112) before it takes the mutex to write the cache (hass.go:114-116), so a replay on connect (hass.go:124-130) can run between the two and leave the broker with an older payload for a config topic that two inbound topics share. The model fuses the publish and the cache write in `Bridge.DiscoveryBridge.Publish`, and `Consistent` relies on that.
- Text.ToLower: only ASCII letters are lower-cased, while Go's `strings.ToLower` folds all of Unicode. Non-ASCII text in a kind or phase would be lower-cased differently.
- `startHassDiscovery`'s connect error path, and all of main.go, are not modelled: they are process wiring.
- app.rb is not modelled: it is a superseded route that no entry point wires up.
