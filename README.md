# MIND2 probe: IPFIX schema, exporter control flow and packet filter

This project models the parts of the MIND2 IoT probe that turn dissected MQTT
packets into IPFIX exports, and proves properties of that model:

- **IPFIX schema registry** (`IpfixTemplate`): the seven MQTT vendor
  Information Elements (IEs), their registration into the shared IE catalog,
  and the 15-field `MqttIpfix` record. The key order of its `get_dict` is the
  Template Record field order of RFC 7011, section 3.4.1, which every Data
  Record must follow (section 3.4.3).
- **Exporter** (`Exporter`): the IE spec strings `name(9999/index)<type>[255]`
  given to the IPFIX library, the template (id 256) and message buffer
  (observation domain 2, Data Set 256) built for every export, the send to the
  collector, and the benchmark counter.
- **Probe** (`Probe`): `parse_boolean`, the packet filter `__retrieve_packet`,
  `process_packet`, the lowercased protocol selector and the capture loop.
- **Flow record** (`FlowRecord`): the immutable `Layer3And4` snapshot, its
  six-key dictionary, and the base `FlowRecord` with its stub hooks.

Shared helpers: `Wrappers` (Option, Result), `Text` (decimal rendering and
reading, `int()` on field strings, ASCII `lower`, first-index search) and
`OrderedDict` (a Python dict literal as its ordered entries).

Stateful parts of the source are classes: the shared IE catalog list
(`IpfixTemplate.IeCatalog`), the exporter with its `counter`
(`Exporter.MqttIpfixExporter`), and the probe (`Probe.MIND2Probe`). The IPFIX
library's IE registry, its `MessageBuffer`, the UDP socket and the flow table
are objects that record the calls made on them (`Exporter.IeLibrary`,
`Exporter.MessageBuffer`, `Exporter.UdpSocket`, `Probe.FlowTable`).

The spec strings number the vendor IEs 1..7 under enterprise 9999, while the
registry gives them ids 32769..32775. In RFC 7011, section 3.2, the 16-bit
field specifier of an enterprise-specific IE with element number 1 carries the
enterprise bit 0x8000 and reads 0x8001 = 32769. `Exporter.VendorSpecIds`
proves, for all seven, that the element number each spec string declares is
the registry id with that bit cleared. The registry tuples carry no enterprise
number; how the `modules.netflow_tmp` decoder resolves these ids is not part
of this model.

A second registration appends the vendor IEs again; `IpfixTemplate.RegisterTwiceDuplicates`
proves that each of them then occurs twice more than before.
Under "coap" or "opcua" the probe only logs a notice and keeps nothing;
`Probe.RetrievePacket` returns None for those selectors.

## Model

| member | source | states |
|---|---|---|
| `IpfixTemplate.IotSpecificIpfixIes` | modules/flows/ipfix_template.py:13-20 | exactly seven vendor IEs with ids 0x8000+1 .. 0x8000+7 in order; the first three typed unsigned16, the last four string; names pairwise distinct |
| `IpfixTemplate.VendorIdsConsecutive` | modules/flows/ipfix_template.py:14-20 | the ids run from 32769 to 32775 and strictly increase along the list |
| `IpfixTemplate.Registered` | modules/flows/ipfix_template.py:27-28 | registration grows the catalog by seven, keeps every earlier entry in place and puts the vendor IEs at the end in list order |
| `IpfixTemplate.AddIotIesToNetflowLib` | modules/flows/ipfix_template.py:22-28 | appending the vendor IEs one at a time leaves the shared catalog equal to its old contents followed by the seven vendor IEs |
| `IpfixTemplate.RegisterTwiceDuplicates` | modules/flows/ipfix_template.py:27-28 | there is no deduplication: after two registrations each vendor IE occurs exactly twice more than before |
| `IpfixTemplate.NewMqttIpfix` | modules/flows/ipfix_template.py:44-59 | a fresh record has all 15 attributes set to None |
| `IpfixTemplate.GetDict` | modules/flows/ipfix_template.py:64-84 | the keys are the eight standard IE names followed by the vendor IE names in registry order, and the i-th entry holds the i-th attribute in declaration order |
| `IpfixTemplate.GetCurrentIpfixTemplate` | modules/flows/ipfix_template.py:30-35 | the template has 15 pairwise distinct fields: sourceIPv4Address .. flowDurationMicroseconds, then the vendor IE names in registry order |
| `IpfixTemplate.GetDictLookup` | modules/flows/ipfix_template.py:68-84 | looking up the i-th template field in get_dict yields exactly the i-th attribute |
| `Text.NatToString` | modules/mqtt_probe/exporter.py:38 | the f-string rendering of the index is a non-empty run of digits without a leading zero; `Text.ParseNatOfNatToString` reads it back |
| `Text.ParseInt` | modules/flows/flow_record.py:46-49 | `int()` succeeds exactly on a digit string, optionally after one '+' or '-'; the value is the decimal value, negated after '-'; the empty string and any other text give None |
| `Text.Lower` | probe.py:26 | lowercasing keeps the length and maps each character through the ASCII lowercase map |
| `Exporter.IeSpec` | modules/mqtt_probe/exporter.py:38-40 | the spec string starts with the IE name followed by "(9999/", and its length is that of the name, the printed index and the type plus nine, five more for a string IE (the "[255]" suffix) |
| `Exporter.IeSpecs` | modules/mqtt_probe/exporter.py:37-40 | one spec string per vendor IE, in registry order, the i-th built with the 1-based index i+1 |
| `Exporter.SpecLengthIffString` | modules/mqtt_probe/exporter.py:39-40 | a spec string ends in [255] if and only if the IE is string-typed |
| `Exporter.ParseIeSpecRoundTrip` | modules/mqtt_probe/exporter.py:38-40 | a spec string reads back as the IE's name and type, enterprise 9999, element number equal to the index, and length 255 exactly for strings |
| `Exporter.VendorSpecIds` | modules/mqtt_probe/exporter.py:37-38 | the element number of the i-th vendor spec string is the registry id minus the enterprise bit 0x8000 |
| `Exporter.MqttTemplate` | modules/mqtt_probe/exporter.py:44 | the template has id 256 and its fields are exactly the current template list, in that order: 15 distinct names, the eight standard IEs first and the vendor IE names last |
| `Exporter.ExportMessage` | modules/mqtt_probe/exporter.py:51-54 | each export's message is for observation domain 2, carries the MQTT template marked for export, Data Set 256 and exactly the flow's record |
| `Exporter.CounterStep` | modules/mqtt_probe/exporter.py:84-85 | a benchmark step adds 10 exactly when the src client id is "DIVIDER" and the control type is 1, and adds nothing otherwise |
| `Exporter.IsDivider` | modules/mqtt_probe/exporter.py:84 | a divider flow (client id "DIVIDER", control type 1) never produces a latency row, whatever the counter |
| `Exporter.Contains` | modules/mqtt_probe/exporter.py:91 | Python's `in` on strings: true exactly when the pattern occurs at some position of the string |
| `Exporter.BenchmarkRow` | modules/mqtt_probe/exporter.py:91-101 | a latency row is written, to the file numbered by the current counter, exactly for a client id containing "temperature-sensor" with control type 3; a non-string client id raises TypeError |
| `Exporter.CounterCountsDividers` | modules/mqtt_probe/exporter.py:84-85 | from 0, after any sequence of benchmarked flows the counter is ten times the number of divider flows |
| `Exporter.MqttIpfixExporter.constructor` | modules/mqtt_probe/exporter.py:25-31 | the configuration is stored and the counter starts at 0 |
| `Exporter.MqttIpfixExporter.GetIpfixTemplate` | modules/mqtt_probe/exporter.py:33-44 | registers exactly the vendor spec strings in order, loads the IANA and RFC 5103 defaults and returns the MQTT template |
| `Exporter.MqttIpfixExporter.GetIpfixMessageBuffer` | modules/mqtt_probe/exporter.py:46-55 | returns a fresh buffer for domain 2 holding the exported template and an open Data Set 256, with no records yet |
| `Exporter.MqttIpfixExporter.DoBenchmark` | modules/mqtt_probe/exporter.py:72-101 | the counter changes only by the divider step, stays a multiple of 10, and the outcome is the benchmark row for the new counter |
| `Exporter.MqttIpfixExporter.ExportMqttIpfix` | modules/mqtt_probe/exporter.py:58-70 | exactly one datagram with the export message is sent to the collector; the IE library gains the seven vendor specs and has the IANA and RFC 5103 defaults loaded; benchmarking, and so any counter change, happens only when the flag is set |
| `FlowRecord.IpToString` | modules/flows/flow_record.py:59-64 | an IPv4 rendering contains no ':'; IPv6 renders as its canonical text |
| `FlowRecord.IpToStringDottedQuad` | modules/flows/flow_record.py:60-62 | an IPv4 rendering is dotted decimal: split at its dots, it reads back as exactly its four octets |
| `FlowRecord.IpToStringInjective` | modules/flows/flow_record.py:59-64 | distinct well-formed addresses have distinct renderings |
| `FlowRecord.NewLayer3And4` | modules/flows/flow_record.py:43-49 | construction succeeds exactly when the IP and TCP layers exist and both ports and the protocol are integer literals; it then copies timestamp and addresses and stores ports and protocol as integers; otherwise the first failing step names the error: a missing layer, then srcport, dstport and proto in that order |
| `FlowRecord.GetLayer3And3` | modules/flows/flow_record.py:54-65 | exactly the six keys timestamp, source_ip, source_port, destination_ip, destination_port, protocol, in that order; addresses as their string rendering, every other value passed through |
| `FlowRecord.GetLayer3And3Injective` | modules/flows/flow_record.py:58-65 | the dictionary determines the snapshot: two snapshots with well-formed addresses and equal dictionaries are equal |
| `FlowRecord.NewFlowRecord` | modules/flows/flow_record.py:13-14 | a flow record is built exactly when its layer-3/4 snapshot of the same packet is, and holds that snapshot; otherwise it fails with the same error |
| `FlowRecord.BaseHooksUnset` | modules/flows/flow_record.py:19-35 | the base record's record id, max-flows and IPFIX representation hooks all return None |
| `Probe.ParseBoolean` | probe.py:22-34 | true exactly when the lowercased value is one of true, yes, y, 1, t; the false words and any other string give false; total |
| `Probe.ParseBooleanCaseInsensitive` | probe.py:26 | two values with the same lowercase form parse alike |
| `Probe.ParseBooleanExamples` | probe.py:26-34 | TRUE, Yes and 1 parse as true; False, N, maybe and the empty string as false |
| `Probe.RetrievePacket` | probe.py:82-102 | a record, built from that packet, is returned exactly when the packet has an MQTT layer, the selector is "mqtt" and sys_topic is True or False; otherwise None |
| `Probe.OnlyMqttRetrieves` | probe.py:94-102 | under any selector other than "mqtt" no packet of any capture is retained |
| `Probe.RetrievedFromMqttPackets` | probe.py:88-92 | every retained record comes from a captured packet with an MQTT layer and a known sys_topic |
| `Probe.MIND2Probe.constructor` | probe.py:41-46 | the protocol selector is stored lowercased, the other arguments as given |
| `Probe.MIND2Probe.ProcessPacket` | probe.py:64-73 | process_flow is called once with the retained record, and not at all when retrieval gives None |
| `Probe.MIND2Probe.Run` | probe.py:48-62 | an unknown selector is only reported; every packet is processed in capture order, the flow table receives exactly the retained records, and the packet counter goes from 1 up by one per packet |

## Left out

- The MQTT record (`modules/flows/mqtt_record.py`) and the flow table (`modules/mqtt_probe/flow_table.py`) are not part of this model: the correlation-data parser, record ids, max-flow policy and `get_ipfix_rep` live there. A record is known only by its packet, and the flow table only by the records it receives.
- The IPFIX library is modelled by the calls made on it: `for_spec` parsing, the contents of the IANA and RFC 5103 default IEs, the name lookup of `spec_list` (which raises for an unknown name), `from_ielist`, and `MessageBuffer` export time, sequence number and `to_bytes` serialisation are not modelled.
- The UDP socket is I/O; a send is recorded as a datagram of the message and the destination.
- Logging is left out: the export log line (including its lookup in `control_types_mapping`, which lives in the MQTT record module), the "to be implemented" notices for coap/opcua, and the error for an unknown selector, which `Probe.MIND2Probe.Run` reports as its `known` result.
- `Exporter.MqttIpfixExporter.DoBenchmark`: directory creation, the `print`, CSV writing, `datetime` parsing and `psutil` readings are I/O or clock/OS readings; the latency-row outcome assumes the correlation data parses as a timestamp, so a `ValueError` or `TypeError` raised by `strptime` is not modelled.
- `Probe.MIND2Probe.Run`: pyshark live capture is a given finite sequence of packets, and the per-packet thread is not modelled. The source calls `process_packet` before the thread is created, so packets are processed one after another, which is what the model does; `stop` closes the capture and is left out.
- `Probe.RetrievePacket`: a failure inside the MQTT record's own construction (for instance a packet without IP or TCP layers) is not modelled.
- `Text.ParseInt`: Python's `int()` also accepts surrounding whitespace, underscores between digits and non-ASCII digits; these forms are not modelled.
- `Text.Lower`: only ASCII letters are mapped; Unicode case mapping of `str.lower` is not modelled.
- `FlowRecord.IpToString`: `ipaddress.ip_address` parsing is a library call; addresses are taken as already parsed, and an IPv6 address is kept as its canonical text rather than computed from its 128 bits.
- argparse and logging setup, the `__str__` JSON dumps, `CoapIpfix`, `OpcuaIpfix` and `modules/flows/opcua_record.py` (every method there is `pass`).
