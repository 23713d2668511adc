/** The IPFIX schema of the probe: the seven vendor Information Elements
    (IEs) for MQTT, their registration into the shared IE catalog of the
    IPFIX library, and the MQTT record whose dictionary key order is the
    Template Record field order (RFC 7011, section 3.4.1), which every Data
    Record must follow (section 3.4.3). */
module IpfixTemplate {
  import opened Wrappers
  import opened OrderedDict

  /** One catalog entry: (element id, name, abstract data type name). */
  datatype InfoElement = InfoElement(id: nat, name: string, wireType: string)

  /** The enterprise bit of an Information Element identifier (RFC 7011,
      section 3.2): ids at or above it are enterprise-specific. */
  const EnterpriseBit: nat := 0x8000

  /** `IpfixTemplate.iot_specific_ipfix_ies`, in list order. */
  function IotSpecificIpfixIes(): (ies: seq<InfoElement>)
    ensures |ies| == 7
    ensures forall i :: 0 <= i < |ies| ==> ies[i].id == EnterpriseBit + 1 + i
    ensures forall i :: 0 <= i < 3 ==> ies[i].wireType == "unsigned16"
    ensures forall i :: 3 <= i < 7 ==> ies[i].wireType == "string"
    ensures Distinct(IeNames(ies))
  {
    [ InfoElement(32769, "mqttQoS", "unsigned16"),
      InfoElement(32770, "mqttControlType", "unsigned16"),
      InfoElement(32771, "mqttPacketId", "unsigned16"),
      InfoElement(32772, "mqttTopic", "string"),
      InfoElement(32773, "mqttSrcClientId", "string"),
      InfoElement(32774, "mqttDstClientId", "string"),
      InfoElement(32775, "mqttCorrelationData", "string") ]
  }

  function IeNames(ies: seq<InfoElement>): (names: seq<string>)
    ensures |names| == |ies|
    ensures forall i :: 0 <= i < |ies| ==> names[i] == ies[i].name
  {
    seq(|ies|, i requires 0 <= i < |ies| => ies[i].name)
  }

  /** The vendor ids run 32769..32775, each one above the previous. */
  lemma VendorIdsConsecutive()
    ensures IotSpecificIpfixIes()[0].id == 32769 && IotSpecificIpfixIes()[6].id == 32775
    ensures forall i, j :: 0 <= i < j < 7 ==> IotSpecificIpfixIes()[i].id < IotSpecificIpfixIes()[j].id
  {
  }

  /** The shared IE catalog `IPFIXFieldTypes.iana_field_types`, a list that
      every caller appends to. */
  class IeCatalog {
    var fieldTypes: seq<InfoElement>

    constructor (initial: seq<InfoElement>)
      ensures fieldTypes == initial
    {
      fieldTypes := initial;
    }
  }

  /** The catalog after one registration: the vendor IEs appended, in order. */
  function Registered(catalog: seq<InfoElement>): (r: seq<InfoElement>)
    ensures |r| == |catalog| + 7
    ensures r[..|catalog|] == catalog
    ensures forall i :: 0 <= i < 7 ==> r[|catalog| + i] == IotSpecificIpfixIes()[i]
  {
    catalog + IotSpecificIpfixIes()
  }

  /** `IpfixTemplate.add_iot_ies_to_netflow_lib`: append each vendor IE to
      the shared catalog, one at a time. */
  method AddIotIesToNetflowLib(catalog: IeCatalog)
    modifies catalog
    ensures catalog.fieldTypes == Registered(old(catalog.fieldTypes))
  {
    var ies := IotSpecificIpfixIes();
    for k := 0 to |ies|
      invariant catalog.fieldTypes == old(catalog.fieldTypes) + ies[..k]
    {
      catalog.fieldTypes := catalog.fieldTypes + [ies[k]];
      assert ies[..k + 1] == ies[..k] + [ies[k]];
    }
    assert ies[..|ies|] == ies;
  }

  /** Nothing prevents a second registration: each vendor IE then occurs
      twice more than it did before. */
  lemma {:induction false} RegisterTwiceDuplicates(catalog: seq<InfoElement>, i: nat)
    requires i < 7
    ensures multiset(Registered(Registered(catalog)))[IotSpecificIpfixIes()[i]]
         == multiset(catalog)[IotSpecificIpfixIes()[i]] + 2
  {
    var ies := IotSpecificIpfixIes();
    var ie := ies[i];
    assert ies == ies[..i] + [ie] + ies[i + 1..];
    assert ie !in ies[..i] && ie !in ies[i + 1..] by {
      forall j | 0 <= j < 7 && j != i ensures ies[j] != ie {
        assert ies[j].id != ie.id;
      }
    }
    assert multiset(ies)[ie] == 1 by {
      calc {
        multiset(ies)[ie];
        multiset(ies[..i])[ie] + multiset([ie])[ie] + multiset(ies[i + 1..])[ie];
        1;
      }
    }
    calc {
      multiset(Registered(Registered(catalog)))[ie];
      multiset(catalog + ies + ies)[ie];
      multiset(catalog)[ie] + multiset(ies)[ie] + multiset(ies)[ie];
    }
  }

  /** A field value of an exported record: Python's `None`, an integer, a
      string, or a `datetime` (here its count of nanoseconds). */
  datatype Value = Null | Int(i: int) | Str(s: string) | Time(nanos: int)

  /** The standard (IANA) IEs that open every MQTT record. */
  const StandardIeNames: seq<string> :=
    [ "sourceIPv4Address", "destinationIPv4Address", "protocolIdentifier",
      "sourceTransportPort", "destinationTransportPort", "flowStartNanoseconds",
      "flowEndNanoseconds", "flowDurationMicroseconds" ]

  /** `MqttIpfix`: one attribute per template field. */
  datatype MqttIpfix = MqttIpfix(
    sourceIpv4Address: Value,
    destinationIpv4Address: Value,
    protocolIdentifier: Value,
    sourceTransportPort: Value,
    destinationTransportPort: Value,
    flowStartNanoseconds: Value,
    flowEndNanoseconds: Value,
    flowDurationMicroseconds: Value,
    mqttQos: Value,
    mqttControlType: Value,
    mqttPacketId: Value,
    mqttTopic: Value,
    mqttSrcClientId: Value,
    mqttDstClientId: Value,
    mqttCorrelationData: Value)

  /** The attributes in the order `__init__` declares them. */
  function Attributes(m: MqttIpfix): (vs: seq<Value>)
    ensures |vs| == 15
  {
    [ m.sourceIpv4Address, m.destinationIpv4Address, m.protocolIdentifier,
      m.sourceTransportPort, m.destinationTransportPort, m.flowStartNanoseconds,
      m.flowEndNanoseconds, m.flowDurationMicroseconds, m.mqttQos, m.mqttControlType,
      m.mqttPacketId, m.mqttTopic, m.mqttSrcClientId, m.mqttDstClientId,
      m.mqttCorrelationData ]
  }

  /** `MqttIpfix()`: every attribute starts out as `None`. */
  function NewMqttIpfix(): (m: MqttIpfix)
    ensures forall i :: 0 <= i < 15 ==> Attributes(m)[i] == Null
  {
    MqttIpfix(Null, Null, Null, Null, Null, Null, Null, Null,
              Null, Null, Null, Null, Null, Null, Null)
  }

  /** `MqttIpfix.get_dict`: the standard IE names then the vendor IE names,
      in registry order, the i-th carrying the i-th declared attribute. */
  function GetDict(m: MqttIpfix): (d: Dict<Value>)
    ensures Keys(d) == StandardIeNames + IeNames(IotSpecificIpfixIes())
    ensures forall i :: 0 <= i < 15 ==> d[i].1 == Attributes(m)[i]
  {
    [ ("sourceIPv4Address", m.sourceIpv4Address),
      ("destinationIPv4Address", m.destinationIpv4Address),
      ("protocolIdentifier", m.protocolIdentifier),
      ("sourceTransportPort", m.sourceTransportPort),
      ("destinationTransportPort", m.destinationTransportPort),
      ("flowStartNanoseconds", m.flowStartNanoseconds),
      ("flowEndNanoseconds", m.flowEndNanoseconds),
      ("flowDurationMicroseconds", m.flowDurationMicroseconds),
      ("mqttQoS", m.mqttQos),
      ("mqttControlType", m.mqttControlType),
      ("mqttPacketId", m.mqttPacketId),
      ("mqttTopic", m.mqttTopic),
      ("mqttSrcClientId", m.mqttSrcClientId),
      ("mqttDstClientId", m.mqttDstClientId),
      ("mqttCorrelationData", m.mqttCorrelationData) ]
  }

  /** `IpfixTemplate.get_current_ipfix_template`: the template field list. */
  function GetCurrentIpfixTemplate(): (fields: seq<string>)
    ensures |fields| == 15
    ensures Distinct(fields)
    ensures fields[..8] == StandardIeNames
    ensures fields[8..] == IeNames(IotSpecificIpfixIes())
  {
    TemplateFieldsDistinct();
    Keys(GetDict(NewMqttIpfix()))
  }

  /** The 15 template field names are pairwise different: the standard
      names differ among themselves, the vendor names among themselves, and
      only the vendor names start with 'm'. */
  lemma TemplateFieldsDistinct()
    ensures Distinct(StandardIeNames + IeNames(IotSpecificIpfixIes()))
  {
    var std, vendor := StandardIeNames, IeNames(IotSpecificIpfixIes());
    forall i, j | 0 <= i < j < |std| ensures std[i] != std[j] {
      assert (|std[i]|, std[i][0]) != (|std[j]|, std[j][0]);
    }
    forall x, y | x in std && y in vendor ensures x != y {
      assert x[0] != 'm';
      var k :| 0 <= k < |vendor| && vendor[k] == y;
      assert y[0] == 'm' by { VendorNamePrefix(k); }
    }
    DistinctConcat(std, vendor);
  }

  lemma VendorNamePrefix(k: nat)
    requires k < 7
    ensures |IotSpecificIpfixIes()[k].name| > 4 && IotSpecificIpfixIes()[k].name[..4] == "mqtt"
  {
  }

  /** Reading `get_dict()` by key gives back exactly the attribute behind
      that key, for every record. */
  lemma GetDictLookup(m: MqttIpfix, i: nat)
    requires i < 15
    ensures Get(GetDict(m), GetCurrentIpfixTemplate()[i]) == Some(Attributes(m)[i])
  {
    var d := GetDict(m);
    assert Keys(d) == GetCurrentIpfixTemplate();
    GetEntry(d, i);
  }
}
