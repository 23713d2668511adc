/** The probe: the command-line boolean parser, the packet filter that
    decides which dissected packets become MQTT records, and the capture
    loop that hands each retained record to the flow table. */
module Probe {
  import opened Wrappers
  import opened Text
  import opened FlowRecord

  /** The protocol selectors the probe knows. */
  const Protocols: seq<string> := ["mqtt", "coap", "opcua"]

  const TrueWords: seq<string> := ["true", "yes", "y", "1", "t"]
  const FalseWords: seq<string> := ["false", "no", "n", "0", "f"]

  /** `parse_boolean`: true exactly for the true words, in any case; the
      false words and every unrecognised value give false. */
  function ParseBoolean(value: string): (b: bool)
    ensures b <==> Lower(value) in TrueWords
    ensures Lower(value) in FalseWords ==> !b
  {
    var v := Lower(value);
    if v in TrueWords then true
    else if v in FalseWords then false
    else false
  }

  /** The result depends only on the lowercased value. */
  lemma ParseBooleanCaseInsensitive(a: string, b: string)
    requires Lower(a) == Lower(b)
    ensures ParseBoolean(a) == ParseBoolean(b)
  {
  }

  lemma ParseBooleanExamples()
    ensures ParseBoolean("TRUE") && ParseBoolean("Yes") && ParseBoolean("1")
    ensures !ParseBoolean("False") && !ParseBoolean("N") && !ParseBoolean("maybe") && !ParseBoolean("")
  {
    assert Lower("TRUE") == "true";
    assert Lower("Yes") == "yes";
    assert Lower("False") == "false";
    assert Lower("maybe") == "maybe";
    assert Lower("1") == "1" && Lower("N") == "n" && Lower("") == "";
  }

  /** `MqttRecord(packet)`. The MQTT record's own parsing is not part of
      this model; the record is known by the packet it was built from. */
  datatype MqttRecord = MqttRecord(packet: Packet)

  /** `MIND2Probe.__retrieve_packet`: a record only for a packet with an
      MQTT layer, under the "mqtt" selector, whose `sys_topic` is True or
      False; every other case (including "coap" and "opcua") gives None. */
  function RetrievePacket(protocol: string, packet: Packet): (r: Option<MqttRecord>)
    ensures r.Some? <==> packet.mqtt.Some? && protocol == "mqtt" && packet.mqtt.value.sysTopic.Some?
    ensures r.Some? ==> r.value.packet == packet
  {
    if packet.mqtt.Some? && protocol == "mqtt" then
      var mqttPacket := MqttRecord(packet);
      (match packet.mqtt.value.sysTopic
      case Some(true) => Some(mqttPacket)
      case Some(false) => Some(mqttPacket)
      case None => None)
    else if protocol == "coap" then None
    else if protocol == "opcua" then None
    else None
  }

  function OptionToSeq<T>(o: Option<T>): (s: seq<T>)
    ensures |s| <= 1
  {
    if o.Some? then [o.value] else []
  }

  /** The records the filter keeps from a capture, in capture order. */
  function Retrieved(protocol: string, capture: seq<Packet>): (rs: seq<MqttRecord>)
    ensures |rs| <= |capture|
  {
    if capture == [] then []
    else Retrieved(protocol, capture[..|capture| - 1])
         + OptionToSeq(RetrievePacket(protocol, capture[|capture| - 1]))
  }

  /** Under any selector other than "mqtt" nothing reaches the flow table. */
  lemma {:induction false} OnlyMqttRetrieves(protocol: string, capture: seq<Packet>)
    requires protocol != "mqtt"
    ensures Retrieved(protocol, capture) == []
  {
    if capture != [] {
      OnlyMqttRetrieves(protocol, capture[..|capture| - 1]);
    }
  }

  /** Every retained record comes from a captured MQTT packet whose
      `sys_topic` is known. */
  lemma {:induction false} RetrievedFromMqttPackets(protocol: string, capture: seq<Packet>, k: nat)
    requires k < |Retrieved(protocol, capture)|
    ensures Retrieved(protocol, capture)[k].packet in capture
    ensures Retrieved(protocol, capture)[k].packet.mqtt.Some?
    ensures Retrieved(protocol, capture)[k].packet.mqtt.value.sysTopic.Some?
  {
    var init := capture[..|capture| - 1];
    if k < |Retrieved(protocol, init)| {
      RetrievedFromMqttPackets(protocol, init, k);
      assert Retrieved(protocol, capture)[k] == Retrieved(protocol, init)[k];
      assert forall p :: p in init ==> p in capture;
    }
  }

  /** `FlowTable`, by the records handed to `process_flow`. The flow table's
      own logic is not part of this model. */
  class FlowTable {
    var processed: seq<MqttRecord>

    constructor ()
      ensures processed == []
    {
      processed := [];
    }

    method ProcessFlow(r: MqttRecord)
      modifies this
      ensures processed == old(processed) + [r]
    {
      processed := processed + [r];
    }
  }

  /** `MIND2Probe`. */
  class MIND2Probe {
    const interface: string
    const captureFilter: string
    const protocol: string
    const flowTable: FlowTable

    /** `__init__`: the protocol selector is stored lowercased. */
    constructor (interface: string, captureFilter: string, protocol: string, flowTable: FlowTable)
      ensures this.protocol == Lower(protocol)
      ensures this.interface == interface && this.captureFilter == captureFilter
      ensures this.flowTable == flowTable
    {
      this.interface := interface;
      this.captureFilter := captureFilter;
      this.protocol := Lower(protocol);
      this.flowTable := flowTable;
    }

    /** `process_packet`: one `process_flow` call for a retained packet,
        none otherwise. */
    method ProcessPacket(packet: Packet)
      modifies flowTable
      ensures flowTable.processed == old(flowTable.processed) + OptionToSeq(RetrievePacket(protocol, packet))
    {
      var mqttPacket := RetrievePacket(protocol, packet);
      if mqttPacket.Some? {
        flowTable.ProcessFlow(mqttPacket.value);
      }
    }

    /** `run` over a finite capture: an unknown selector is only reported,
        then every packet is processed in capture order. `counter` is the
        per-packet thread number, from 1. */
    method Run(capture: seq<Packet>) returns (counter: nat, known: bool)
      modifies flowTable
      ensures known <==> protocol in Protocols
      ensures counter == |capture| + 1
      ensures flowTable.processed == old(flowTable.processed) + Retrieved(protocol, capture)
    {
      known := protocol in Protocols;
      counter := 1;
      for i := 0 to |capture|
        invariant counter == i + 1
        invariant flowTable.processed == old(flowTable.processed) + Retrieved(protocol, capture[..i])
      {
        ProcessPacket(capture[i]);
        assert capture[..i + 1][..i] == capture[..i];
        counter := counter + 1;
      }
      assert capture[..|capture|] == capture;
    }
  }
}
