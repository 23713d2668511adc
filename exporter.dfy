/** The MQTT IPFIX exporter: the IE spec strings handed to the IPFIX
    library, the template and message buffer it builds for every export,
    the send to the collector, and the benchmark counter. The IPFIX library
    and the UDP socket are modelled as objects that record what they were
    asked to do. */
module Exporter {
  import opened Wrappers
  import opened Text
  import opened OrderedDict
  import opened IpfixTemplate

  /** The Set ID of the MQTT template and its Data Set. */
  const MqttTemplateId: nat := 256

  /** The Observation Domain ID of every message. */
  const ObservationDomainId: nat := 2

  /** The private enterprise number written into every vendor spec string. */
  const SpecEnterpriseNumber: nat := 9999

  /** The spec string for the IE at 1-based position `index`, in the
      library's `name(pen/num)<type>[length]` notation. */
  function IeSpec(ie: InfoElement, index: nat): (s: string)
    ensures |s| == |ie.name| + |NatToString(index)| + |ie.wireType| + 9
      + (if ie.wireType == "string" then 5 else 0)
    ensures s[..|ie.name| + 6] == ie.name + "(9999/"
  {
    ie.name + "(9999/" + NatToString(index) + ")<" + ie.wireType + ">"
      + (if ie.wireType == "string" then "[255]" else "")
  }

  /** One spec string per IE, in registry order, numbered from 1. */
  function IeSpecs(ies: seq<InfoElement>): (specs: seq<string>)
    ensures |specs| == |ies|
    ensures forall i :: 0 <= i < |ies| ==> specs[i] == IeSpec(ies[i], i + 1)
  {
    seq(|ies|, i requires 0 <= i < |ies| => IeSpec(ies[i], i + 1))
  }

  predicate EndsWith(s: string, suffix: string)
  {
    |suffix| <= |s| && s[|s| - |suffix|..] == suffix
  }

  /** A spec string declares the 255-octet length exactly for strings. */
  lemma SpecLengthIffString(ie: InfoElement, index: nat)
    ensures EndsWith(IeSpec(ie, index), "[255]") <==> ie.wireType == "string"
  {
    var s := IeSpec(ie, index);
    if ie.wireType != "string" {
      assert s[|s| - 1] == '>';
    }
  }

  /** The fields a spec string declares. */
  datatype SpecFields = SpecFields(
    name: string, enterprise: nat, elementId: nat, typeName: string, length: Option<nat>)

  /** Splits `s` at the first `c`, dropping it. */
  function SplitAt(s: string, c: char): (r: Option<(string, string)>)
  {
    match IndexOf(s, c)
    case None => None
    case Some(i) => Some((s[..i], s[i + 1..]))
  }

  lemma SplitAtJoin(a: string, c: char, b: string)
    requires c !in a
    ensures SplitAt(a + [c] + b, c) == Some((a, b))
  {
    IndexOfSplit(a, c, b);
    var s := a + [c] + b;
    assert s[..|a|] == a && s[|a| + 1..] == b;
  }

  /** Reads a spec string back into its fields: the name up to the first
      `(`, the enterprise number up to `/`, the element number up to `)`,
      the type between `<` and `>`, and an optional `[length]`. */
  function ParseIeSpec(s: string): (r: Option<SpecFields>)
  {
    match SplitAt(s, '(')
    case None => None
    case Some((name, rest)) => ParseNumbered(name, rest)
  }

  /** The part after `name(`: `pen/num)` and the type part. */
  function ParseNumbered(name: string, rest: string): (r: Option<SpecFields>)
  {
    match SplitAt(rest, '/')
    case None => None
    case Some((pen, r2)) =>
      match SplitAt(r2, ')')
      case None => None
      case Some((num, r3)) =>
        match (ParseNat(pen), ParseNat(num), ParseTypePart(r3))
        case (Some(e), Some(n), Some((ty, len))) => Some(SpecFields(name, e, n, ty, len))
        case _ => None
  }

  /** The part after `)`: `<type>` and an optional `[length]`. */
  function ParseTypePart(part: string): (r: Option<(string, Option<nat>)>)
  {
    if |part| == 0 || part[0] != '<' then None
    else
      match SplitAt(part[1..], '>')
      case None => None
      case Some((ty, tail)) =>
        match ParseLength(tail)
        case None => None
        case Some(len) => Some((ty, len))
  }

  /** The optional length part: nothing, or `[digits]`. */
  function ParseLength(tail: string): (r: Option<Option<nat>>)
  {
    if tail == [] then Some(None)
    else if |tail| >= 2 && tail[0] == '[' && tail[|tail| - 1] == ']' then
      match ParseNat(tail[1..|tail| - 1])
      case None => None
      case Some(n) => Some(Some(n))
    else None
  }

  lemma ParseSmallConstants()
    ensures ParseNat("9999") == Some(9999)
    ensures ParseLength("[255]") == Some(Some(255))
    ensures ParseLength("") == Some(None)
  {
    assert "9999"[..3] == "999" && "999"[..2] == "99" && "99"[..1] == "9" && "9"[..0] == "";
    assert "[255]"[1..4] == "255";
    assert "255"[..2] == "25" && "25"[..1] == "2" && "2"[..0] == "";
  }

  lemma ParseTypePartOf(ty: string, suffix: string)
    requires '>' !in ty
    ensures ParseLength(suffix).Some? ==>
      ParseTypePart("<" + ty + ">" + suffix) == Some((ty, ParseLength(suffix).value))
  {
    var r := "<" + ty + ">" + suffix;
    assert r[1..] == ty + ['>'] + suffix;
    SplitAtJoin(ty, '>', suffix);
  }

  /** A spec string built from an IE reads back as that IE's name and type,
      enterprise 9999, element number `index`, and length 255 exactly for
      strings. */
  lemma ParseIeSpecRoundTrip(ie: InfoElement, index: nat)
    requires '(' !in ie.name && '>' !in ie.wireType
    ensures ParseIeSpec(IeSpec(ie, index)) == Some(SpecFields(ie.name, SpecEnterpriseNumber, index,
      ie.wireType, if ie.wireType == "string" then Some(255) else None))
  {
    var digits := NatToString(index);
    var suffix := if ie.wireType == "string" then "[255]" else "";
    var r3 := "<" + ie.wireType + ">" + suffix;
    var r2 := digits + ")" + r3;
    var r1 := "9999" + "/" + r2;
    assert IeSpec(ie, index) == ie.name + ['('] + r1;
    SplitAtJoin(ie.name, '(', r1);
    assert r1 == "9999" + ['/'] + r2;
    SplitAtJoin("9999", '/', r2);
    NoSymbolInDecimal(index, ')');
    assert r2 == digits + [')'] + r3;
    SplitAtJoin(digits, ')', r3);
    ParseSmallConstants();
    ParseTypePartOf(ie.wireType, suffix);
    ParseNatOfNatToString(index);
  }

  /** Vendor names and types contain none of the separators of the spec
      notation that precede them. */
  lemma VendorIeSeparatorFree(i: nat)
    requires i < 7
    ensures '(' !in IotSpecificIpfixIes()[i].name && '>' !in IotSpecificIpfixIes()[i].wireType
  {
    VendorNamesParenFree();
    assert '>' !in "unsigned16" && '>' !in "string";
  }

  lemma VendorNamesParenFree()
    ensures '(' !in "mqttQoS" && '(' !in "mqttControlType" && '(' !in "mqttPacketId"
    ensures '(' !in "mqttTopic" && '(' !in "mqttSrcClientId" && '(' !in "mqttDstClientId"
    ensures '(' !in "mqttCorrelationData"
  {
  }

  /** The element number each vendor spec declares is the registry id with
      the enterprise bit cleared, so both name the same IE. */
  lemma VendorSpecIds(i: nat)
    requires i < 7
    ensures ParseIeSpec(IeSpecs(IotSpecificIpfixIes())[i]).Some?
    ensures ParseIeSpec(IeSpecs(IotSpecificIpfixIes())[i]).value.elementId
         == IotSpecificIpfixIes()[i].id - EnterpriseBit
  {
    var ie := IotSpecificIpfixIes()[i];
    VendorIeSeparatorFree(i);
    ParseIeSpecRoundTrip(ie, i + 1);
  }

  /** The module-level state of the IPFIX library's IE registry: every spec
      string given to `for_spec`, in call order, and whether the IANA and
      RFC 5103 default IEs have been loaded. */
  class IeLibrary {
    var specs: seq<string>
    var ianaDefault: bool
    var rfc5103Default: bool

    constructor ()
      ensures specs == [] && !ianaDefault && !rfc5103Default
    {
      specs, ianaDefault, rfc5103Default := [], false, false;
    }

    method ForSpec(spec: string)
      modifies this
      ensures specs == old(specs) + [spec]
      ensures ianaDefault == old(ianaDefault) && rfc5103Default == old(rfc5103Default)
    {
      specs := specs + [spec];
    }

    method UseIanaDefault()
      modifies this`ianaDefault
      ensures ianaDefault
    {
      ianaDefault := true;
    }

    method Use5103Default()
      modifies this`rfc5103Default
      ensures rfc5103Default
    {
      rfc5103Default := true;
    }
  }

  /** A Template Record: its template id and its field names, in order. */
  datatype Template = Template(templateId: nat, fields: seq<string>)

  /** What a message buffer holds when it is serialised. */
  datatype Message = Message(
    odid: Option<nat>,
    templates: seq<(Template, bool)>,
    setId: Option<nat>,
    records: seq<Dict<Value>>)

  /** The IPFIX library's `MessageBuffer`, by the calls made on it. */
  class MessageBuffer {
    var odid: Option<nat>
    var templates: seq<(Template, bool)>
    var setId: Option<nat>
    var records: seq<Dict<Value>>

    function Contents(): Message
      reads this
    {
      Message(odid, templates, setId, records)
    }

    constructor ()
      ensures Contents() == Message(None, [], None, [])
    {
      odid, templates, setId, records := None, [], None, [];
    }

    method BeginExport(id: nat)
      modifies this
      ensures Contents() == old(Contents()).(odid := Some(id))
    {
      odid := Some(id);
    }

    method AddTemplate(t: Template, exported: bool)
      modifies this
      ensures Contents() == old(Contents()).(templates := old(templates) + [(t, exported)])
    {
      templates := templates + [(t, exported)];
    }

    method ExportEnsureSet(id: nat)
      modifies this
      ensures Contents() == old(Contents()).(setId := Some(id))
    {
      setId := Some(id);
    }

    method ExportNamedict(d: Dict<Value>)
      modifies this
      ensures Contents() == old(Contents()).(records := old(records) + [d])
    {
      records := records + [d];
    }
  }

  /** One UDP datagram: the serialised message and its destination. */
  datatype Datagram = Datagram(message: Message, host: string, port: int)

  /** The process-wide UDP socket, by the datagrams sent through it. */
  class UdpSocket {
    var sent: seq<Datagram>

    constructor ()
      ensures sent == []
    {
      sent := [];
    }

    method SendTo(m: Message, host: string, port: int)
      modifies this
      ensures sent == old(sent) + [Datagram(m, host, port)]
    {
      sent := sent + [Datagram(m, host, port)];
    }
  }

  /** The MQTT template every export carries. */
  function MqttTemplate(): (t: Template)
    ensures t.templateId == MqttTemplateId
    ensures |t.fields| == 15 && Distinct(t.fields)
    ensures t.fields[8..] == IeNames(IotSpecificIpfixIes())
    ensures t.fields == GetCurrentIpfixTemplate()
  {
    Template(MqttTemplateId, GetCurrentIpfixTemplate())
  }

  /** The message of one export, before it is serialised. */
  function ExportMessage(flowIpfix: Dict<Value>): (m: Message)
    ensures m.odid == Some(ObservationDomainId)
    ensures m.templates == [(MqttTemplate(), true)]
    ensures m.setId == Some(MqttTemplateId)
    ensures m.records == [flowIpfix]
  {
    Message(Some(ObservationDomainId), [(MqttTemplate(), true)], Some(MqttTemplateId), [flowIpfix])
  }

  /** A benchmark flow that opens a new measurement file. */
  predicate IsDivider(flow: MqttIpfix)
    ensures IsDivider(flow) ==> forall c: nat :: BenchmarkRow(flow, c) == NoRow
  {
    flow.mqttSrcClientId == Str("DIVIDER") && flow.mqttControlType == Int(1)
  }

  /** What one benchmark step adds to the counter. */
  function CounterStep(flow: MqttIpfix): (n: nat)
    ensures n == 10 || n == 0
    ensures n == 10 <==> IsDivider(flow)
  {
    if IsDivider(flow) then 10 else 0
  }

  /** `p` occurs in `s` starting at position `i`. */
  predicate OccursAt(s: string, p: string, i: int)
  {
    0 <= i && i + |p| <= |s| && s[i..i + |p|] == p
  }

  /** Past position 0, occurrences in `s` are those in `s[1..]`, shifted. */
  lemma OccursShift(s: string, p: string)
    requires |s| > 0 && !OccursAt(s, p, 0)
    ensures (exists i :: OccursAt(s, p, i)) <==> (exists j :: OccursAt(s[1..], p, j))
  {
    forall j | OccursAt(s[1..], p, j) ensures OccursAt(s, p, j + 1) {
      assert s[j + 1..j + 1 + |p|] == s[1..][j..j + |p|];
    }
    forall i | OccursAt(s, p, i) ensures OccursAt(s[1..], p, i - 1) {
      assert i != 0;
      var here, there := s[i..i + |p|], s[1..][i - 1..i - 1 + |p|];
      forall k | 0 <= k < |p| ensures here[k] == there[k] {
        assert here[k] == s[i + k] && there[k] == s[1..][i - 1 + k];
      }
      assert here == there;
    }
  }

  /** Python's `p in s` on strings, scanning `s` from the left: true exactly
      when `p` occurs in `s` at some position. */
  predicate Contains(s: string, p: string)
    ensures Contains(s, p) <==> exists i :: OccursAt(s, p, i)
  {
    if |p| <= |s| && s[..|p|] == p then
      assert OccursAt(s, p, 0);
      true
    else if |s| > 0 then
      var rest := Contains(s[1..], p);
      OccursShift(s, p);
      rest
    else
      assert forall i :: !OccursAt(s, p, i);
      false
  }

  /** What one benchmark step does besides the counter: append a latency
      row to the CSV file numbered by the counter, do nothing, or raise the
      `TypeError` that `in` raises on a client id that is not a string. */
  datatype BenchmarkOutcome = NoRow | LatencyRow(fileCounter: nat) | RaisesTypeError

  function BenchmarkRow(flow: MqttIpfix, counter: nat): (o: BenchmarkOutcome)
    ensures o == RaisesTypeError <==> !flow.mqttSrcClientId.Str?
    ensures o.LatencyRow? <==>
      flow.mqttSrcClientId.Str? && Contains(flow.mqttSrcClientId.s, "temperature-sensor") &&
      flow.mqttControlType == Int(3)
    ensures o.LatencyRow? ==> o.fileCounter == counter
  {
    match flow.mqttSrcClientId
    case Str(id) =>
      if Contains(id, "temperature-sensor") && flow.mqttControlType == Int(3) then LatencyRow(counter)
      else NoRow
    case _ => RaisesTypeError
  }

  /** The counter after benchmarking the given flows in order from 0. */
  function CounterAfter(flows: seq<MqttIpfix>): (n: nat)
  {
    if flows == [] then 0 else CounterAfter(flows[..|flows| - 1]) + CounterStep(flows[|flows| - 1])
  }

  /** The flows among `flows` that are dividers, in order. */
  function Dividers(flows: seq<MqttIpfix>): (ds: seq<MqttIpfix>)
    ensures |ds| <= |flows|
    ensures forall k :: 0 <= k < |ds| ==> IsDivider(ds[k])
  {
    if flows == [] then []
    else if IsDivider(flows[0]) then [flows[0]] + Dividers(flows[1..])
    else Dividers(flows[1..])
  }

  lemma {:induction false} DividersAppend(flows: seq<MqttIpfix>, f: MqttIpfix)
    ensures Dividers(flows + [f]) == Dividers(flows) + (if IsDivider(f) then [f] else [])
  {
    if flows != [] {
      assert (flows + [f])[1..] == flows[1..] + [f];
      DividersAppend(flows[1..], f);
    }
  }

  /** After any sequence of benchmarked flows the counter is ten times the
      number of dividers among them. */
  lemma {:induction false} CounterCountsDividers(flows: seq<MqttIpfix>)
    ensures CounterAfter(flows) == 10 * |Dividers(flows)|
  {
    if flows != [] {
      var init, last := flows[..|flows| - 1], flows[|flows| - 1];
      CounterCountsDividers(init);
      assert flows == init + [last];
      DividersAppend(init, last);
    }
  }

  /** `MqttIpfixExporter`. */
  class MqttIpfixExporter {
    const collectorIp: string
    const port: int
    const benchmark: bool
    const filename: string
    var counter: nat

    /** The counter only ever moves in steps of ten. */
    ghost predicate Valid()
      reads this
    {
      counter % 10 == 0
    }

    constructor (collectorIp: string, port: int, benchmark: bool, filename: string)
      ensures Valid() && counter == 0
      ensures this.collectorIp == collectorIp && this.port == port
      ensures this.benchmark == benchmark && this.filename == filename
    {
      this.collectorIp, this.port := collectorIp, port;
      this.benchmark, this.filename := benchmark, filename;
      counter := 0;
    }

    /** `get_ipfix_template`: register one spec string per vendor IE,
        numbered from 1, load the default IEs, and build template 256 over
        the current field list. */
    method GetIpfixTemplate(lib: IeLibrary) returns (t: Template)
      modifies lib
      ensures lib.specs == old(lib.specs) + IeSpecs(IotSpecificIpfixIes())
      ensures lib.ianaDefault && lib.rfc5103Default
      ensures t == MqttTemplate()
    {
      var ies := IotSpecificIpfixIes();
      for k := 0 to |ies|
        invariant lib.specs == old(lib.specs) + IeSpecs(ies)[..k]
      {
        var index := k + 1;
        var infoEle := ies[k];
        var ieString := infoEle.name + "(9999/" + NatToString(index) + ")<" + infoEle.wireType + ">";
        if infoEle.wireType == "string" {
          ieString := ieString + "[255]";
        }
        assert ieString == IeSpec(infoEle, index);
        lib.ForSpec(ieString);
        assert IeSpecs(ies)[..k + 1] == IeSpecs(ies)[..k] + [ieString];
      }
      assert IeSpecs(ies)[..|ies|] == IeSpecs(ies);
      lib.UseIanaDefault();
      lib.Use5103Default();
      t := Template(MqttTemplateId, GetCurrentIpfixTemplate());
    }

    /** `__get_ipfix_message_buffer`: a fresh buffer for observation domain
        2 holding the template (marked for export) and an open Data Set 256. */
    method GetIpfixMessageBuffer(lib: IeLibrary) returns (buf: MessageBuffer)
      modifies lib
      ensures fresh(buf)
      ensures buf.Contents() == Message(Some(ObservationDomainId), [(MqttTemplate(), true)], Some(MqttTemplateId), [])
      ensures lib.specs == old(lib.specs) + IeSpecs(IotSpecificIpfixIes())
      ensures lib.ianaDefault && lib.rfc5103Default
    {
      buf := new MessageBuffer();
      buf.BeginExport(ObservationDomainId);
      var t := GetIpfixTemplate(lib);
      buf.AddTemplate(t, true);
      buf.ExportEnsureSet(MqttTemplateId);
    }

    /** `do_benchmark`, without its file and clock effects: the counter
        grows by 10 on a divider flow, and the outcome says which row, if
        any, would be written and to which file. */
    method DoBenchmark(flow: MqttIpfix) returns (outcome: BenchmarkOutcome)
      requires Valid()
      modifies this`counter
      ensures Valid()
      ensures counter == old(counter) + CounterStep(flow)
      ensures outcome == BenchmarkRow(flow, counter)
    {
      if flow.mqttSrcClientId == Str("DIVIDER") && flow.mqttControlType == Int(1) {
        counter := counter + 10;
      }
      match flow.mqttSrcClientId {
        case Str(id) =>
          if Contains(id, "temperature-sensor") && flow.mqttControlType == Int(3) {
            outcome := LatencyRow(counter);
          } else {
            outcome := NoRow;
          }
        case _ =>
          outcome := RaisesTypeError;
      }
    }

    /** `export_mqtt_ipfix`: build a fresh message, add the flow's record,
        send it to the collector, and benchmark only when enabled. The
        record and the benchmark object are what the MQTT record's
        `get_ipfix_rep` returns. */
    method ExportMqttIpfix(lib: IeLibrary, sock: UdpSocket, flowIpfix: Dict<Value>, ipfixObject: MqttIpfix)
      returns (bench: Option<BenchmarkOutcome>)
      requires Valid()
      modifies lib, sock, this`counter
      ensures Valid()
      ensures sock.sent == old(sock.sent) + [Datagram(ExportMessage(flowIpfix), collectorIp, port)]
      ensures lib.specs == old(lib.specs) + IeSpecs(IotSpecificIpfixIes())
      ensures lib.ianaDefault && lib.rfc5103Default
      ensures benchmark ==>
        counter == old(counter) + CounterStep(ipfixObject) && bench == Some(BenchmarkRow(ipfixObject, counter))
      ensures !benchmark ==> counter == old(counter) && bench == None
    {
      var buf := GetIpfixMessageBuffer(lib);
      buf.ExportNamedict(flowIpfix);
      assert buf.Contents() == ExportMessage(flowIpfix);
      sock.SendTo(buf.Contents(), collectorIp, port);
      if benchmark {
        var o := DoBenchmark(ipfixObject);
        bench := Some(o);
      } else {
        bench := None;
      }
    }
  }
}
