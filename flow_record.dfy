/** Generic flow records: the layer-3/4 snapshot of a dissected packet and
    the base flow record that wraps it. */
module FlowRecord {
  import opened Wrappers
  import opened Text
  import opened OrderedDict
  import IpfixTemplate

  /** An address as `ipaddress.ip_address` returns it. IPv4 is kept as its
      four octets; for IPv6 the model keeps the library's canonical text. */
  datatype IpAddress = IPv4(a: nat, b: nat, c: nat, d: nat) | IPv6(text: string)

  predicate WellFormedIp(ip: IpAddress)
  {
    match ip
    case IPv4(a, b, c, d) => a < 256 && b < 256 && c < 256 && d < 256
    case IPv6(text) => ':' in text
  }

  /** `str(ip)`: dotted decimal for IPv4, the canonical text for IPv6. */
  function IpToString(ip: IpAddress): (s: string)
    ensures ip.IPv4? ==> ':' !in s
    ensures ip.IPv6? ==> s == ip.text
  {
    match ip
    case IPv4(a, b, c, d) =>
      NoSymbolInDecimal(a, ':'); NoSymbolInDecimal(b, ':');
      NoSymbolInDecimal(c, ':'); NoSymbolInDecimal(d, ':');
      NatToString(a) + "." + (NatToString(b) + "." + (NatToString(c) + "." + NatToString(d)))
    case IPv6(text) => text
  }

  /** `x + "." + rest` determines `x` when `x` is a decimal numeral. */
  lemma DecimalDotPrefix(m: nat, r: string, n: nat, t: string)
    requires NatToString(m) + "." + r == NatToString(n) + "." + t
    ensures m == n && r == t
  {
    var x, y := NatToString(m), NatToString(n);
    NoSymbolInDecimal(m, '.');
    NoSymbolInDecimal(n, '.');
    assert x + "." + r == x + ['.'] + r;
    assert y + "." + t == y + ['.'] + t;
    IndexOfSplit(x, '.', r);
    IndexOfSplit(y, '.', t);
    var s := x + "." + r;
    assert x == s[..|x|] == y;
    NatToStringInjective(m, n);
    assert r == s[|x| + 1..] == t;
  }

  /** Splits a text at its first dot. */
  function SplitDot(s: string): (r: Option<(string, string)>)
    ensures r.Some? ==> s == r.value.0 + "." + r.value.1 && '.' !in r.value.0
  {
    match IndexOf(s, '.')
    case Some(i) =>
      assert s == s[..i] + "." + s[i + 1..];
      Some((s[..i], s[i + 1..]))
    case None => None
  }

  /** Reads a dotted-decimal text back as four octets. */
  function ReadDottedQuad(s: string): (r: Option<IpAddress>)
    ensures r.Some? ==> r.value.IPv4? && WellFormedIp(r.value)
  {
    match SplitDot(s)
    case None => None
    case Some((x, s1)) =>
      match SplitDot(s1)
      case None => None
      case Some((y, s2)) =>
        match SplitDot(s2)
        case None => None
        case Some((z, w)) =>
          match (ParseNat(x), ParseNat(y), ParseNat(z), ParseNat(w))
          case (Some(a), Some(b), Some(c), Some(d)) =>
            if a < 256 && b < 256 && c < 256 && d < 256 then Some(IPv4(a, b, c, d)) else None
          case _ => None
  }

  lemma SplitDotOfDecimal(m: nat, r: string)
    ensures SplitDot(NatToString(m) + "." + r) == Some((NatToString(m), r))
  {
    var x := NatToString(m);
    NoSymbolInDecimal(m, '.');
    assert x + "." + r == x + ['.'] + r;
    IndexOfSplit(x, '.', r);
    var s := x + "." + r;
    assert s[..|x|] == x && s[|x| + 1..] == r;
  }

  /** An IPv4 rendering is dotted decimal: it reads back as its four octets. */
  lemma IpToStringDottedQuad(ip: IpAddress)
    requires ip.IPv4? && WellFormedIp(ip)
    ensures ReadDottedQuad(IpToString(ip)) == Some(ip)
  {
    var (a, b, c, d) := (ip.a, ip.b, ip.c, ip.d);
    var s2 := NatToString(c) + "." + NatToString(d);
    var s1 := NatToString(b) + "." + s2;
    assert IpToString(ip) == NatToString(a) + "." + s1;
    SplitDotOfDecimal(a, s1);
    SplitDotOfDecimal(b, s2);
    SplitDotOfDecimal(c, NatToString(d));
    ParseNatOfNatToString(a);
    ParseNatOfNatToString(b);
    ParseNatOfNatToString(c);
    ParseNatOfNatToString(d);
  }

  /** Distinct well-formed addresses have distinct renderings. */
  lemma IpToStringInjective(p: IpAddress, q: IpAddress)
    requires WellFormedIp(p) && WellFormedIp(q)
    requires IpToString(p) == IpToString(q)
    ensures p == q
  {
    if p.IPv4? && q.IPv4? {
      var (a, b, c, d) := (p.a, p.b, p.c, p.d);
      var (a', b', c', d') := (q.a, q.b, q.c, q.d);
      DecimalDotPrefix(a, NatToString(b) + "." + (NatToString(c) + "." + NatToString(d)),
                       a', NatToString(b') + "." + (NatToString(c') + "." + NatToString(d')));
      DecimalDotPrefix(b, NatToString(c) + "." + NatToString(d),
                       b', NatToString(c') + "." + NatToString(d'));
      DecimalDotPrefix(c, NatToString(d), c', NatToString(d'));
      NatToStringInjective(d, d');
    }
  }

  /** `packet.sniff_time`, a `datetime`, kept as nanoseconds. */
  datatype Timestamp = Timestamp(nanos: int)

  /** The dissector's layers of one packet: field values are the strings the
      dissector reports, except the addresses, which are taken as already
      parsed. The MQTT layer carries only the `sys_topic` value the MQTT
      record derives from it. */
  datatype IpLayer = IpLayer(src: IpAddress, dst: IpAddress, proto: string)
  datatype TcpLayer = TcpLayer(srcport: string, dstport: string)
  datatype MqttLayer = MqttLayer(sysTopic: Option<bool>)
  datatype Packet = Packet(
    sniffTime: Timestamp,
    ip: Option<IpLayer>,
    tcp: Option<TcpLayer>,
    mqtt: Option<MqttLayer>)

  /** What the constructors raise: a missing layer (`AttributeError`) or a
      field that is not an integer literal (`ValueError`). */
  datatype RecordError = MissingLayer(layer: string) | NotAnInteger(field: string)

  /** `Layer3And4`: a read-only snapshot of a packet's network identity. */
  datatype Layer3And4 = Layer3And4(
    timestamp: Timestamp,
    sourceIp: IpAddress,
    sourcePort: int,
    destinationIp: IpAddress,
    destinationPort: int,
    protocol: int)

  /** `Layer3And4.__init__`: copy the six fields in the constructor's order;
      the first step that fails decides the error. */
  function NewLayer3And4(p: Packet): (r: Result<Layer3And4, RecordError>)
    ensures r.Success? <==>
      p.ip.Some? && p.tcp.Some? && ParseInt(p.tcp.value.srcport).Some? &&
      ParseInt(p.tcp.value.dstport).Some? && ParseInt(p.ip.value.proto).Some?
    ensures r.Success? ==>
      r.value.timestamp == p.sniffTime &&
      r.value.sourceIp == p.ip.value.src && r.value.destinationIp == p.ip.value.dst &&
      Some(r.value.sourcePort) == ParseInt(p.tcp.value.srcport) &&
      Some(r.value.destinationPort) == ParseInt(p.tcp.value.dstport) &&
      Some(r.value.protocol) == ParseInt(p.ip.value.proto)
    ensures p.ip.None? ==> r == Failure(MissingLayer("ip"))
    ensures p.ip.Some? && p.tcp.None? ==> r == Failure(MissingLayer("tcp"))
    ensures p.ip.Some? && p.tcp.Some? && ParseInt(p.tcp.value.srcport).None? ==>
      r == Failure(NotAnInteger("srcport"))
    ensures (p.ip.Some? && p.tcp.Some? && ParseInt(p.tcp.value.srcport).Some? &&
             ParseInt(p.tcp.value.dstport).None?)
      ==> r == Failure(NotAnInteger("dstport"))
    ensures (p.ip.Some? && p.tcp.Some? && ParseInt(p.tcp.value.srcport).Some? &&
             ParseInt(p.tcp.value.dstport).Some? && ParseInt(p.ip.value.proto).None?)
      ==> r == Failure(NotAnInteger("proto"))
  {
    if p.ip.None? then Failure(MissingLayer("ip"))
    else if p.tcp.None? then Failure(MissingLayer("tcp"))
    else
      var ip, tcp := p.ip.value, p.tcp.value;
      match ParseInt(tcp.srcport)
      case None => Failure(NotAnInteger("srcport"))
      case Some(sport) =>
        match ParseInt(tcp.dstport)
        case None => Failure(NotAnInteger("dstport"))
        case Some(dport) =>
          match ParseInt(ip.proto)
          case None => Failure(NotAnInteger("proto"))
          case Some(proto) =>
            Success(Layer3And4(p.sniffTime, ip.src, sport, ip.dst, dport, proto))
  }

  /** Values of the layer-3/4 dictionary. */
  datatype L34Value = TimeValue(t: Timestamp) | TextValue(s: string) | IntValue(i: int)

  const Layer34Keys: seq<string> :=
    ["timestamp", "source_ip", "source_port", "destination_ip", "destination_port", "protocol"]

  lemma Layer34KeysDistinct()
    ensures Distinct(Layer34Keys)
  {
    var ks := Layer34Keys;
    forall i, j | 0 <= i < j < |ks| ensures ks[i] != ks[j] {
      assert (|ks[i]|, ks[i][0]) != (|ks[j]|, ks[j][0]);
    }
  }

  /** `Layer3And4.get_layer3_and_3`: the six fields by name, addresses
      rendered as text and everything else passed through. */
  function GetLayer3And3(l: Layer3And4): (d: Dict<L34Value>)
    ensures Keys(d) == Layer34Keys
    ensures Get(d, "timestamp") == Some(TimeValue(l.timestamp))
    ensures Get(d, "source_ip") == Some(TextValue(IpToString(l.sourceIp)))
    ensures Get(d, "source_port") == Some(IntValue(l.sourcePort))
    ensures Get(d, "destination_ip") == Some(TextValue(IpToString(l.destinationIp)))
    ensures Get(d, "destination_port") == Some(IntValue(l.destinationPort))
    ensures Get(d, "protocol") == Some(IntValue(l.protocol))
  {
    var d := [ ("timestamp", TimeValue(l.timestamp)),
               ("source_ip", TextValue(IpToString(l.sourceIp))),
               ("source_port", IntValue(l.sourcePort)),
               ("destination_ip", TextValue(IpToString(l.destinationIp))),
               ("destination_port", IntValue(l.destinationPort)),
               ("protocol", IntValue(l.protocol)) ];
    assert Keys(d) == Layer34Keys;
    Layer34KeysDistinct();
    GetEntry(d, 2); GetEntry(d, 3); GetEntry(d, 4); GetEntry(d, 5);
    d
  }

  /** The dictionary loses nothing: it determines the snapshot. */
  lemma GetLayer3And3Injective(l: Layer3And4, m: Layer3And4)
    requires WellFormedIp(l.sourceIp) && WellFormedIp(l.destinationIp)
    requires WellFormedIp(m.sourceIp) && WellFormedIp(m.destinationIp)
    requires GetLayer3And3(l) == GetLayer3And3(m)
    ensures l == m
  {
    assert GetLayer3And3(l)[1] == GetLayer3And3(m)[1];
    assert GetLayer3And3(l)[3] == GetLayer3And3(m)[3];
    IpToStringInjective(l.sourceIp, m.sourceIp);
    IpToStringInjective(l.destinationIp, m.destinationIp);
    assert GetLayer3And3(l)[0] == GetLayer3And3(m)[0];
    assert GetLayer3And3(l)[2] == GetLayer3And3(m)[2];
    assert GetLayer3And3(l)[4] == GetLayer3And3(m)[4];
    assert GetLayer3And3(l)[5] == GetLayer3And3(m)[5];
  }

  /** The base `FlowRecord`: a layer-3/4 snapshot; its per-protocol hooks
      are stubs that return `None`. */
  datatype FlowRecord = FlowRecord(layer3And4: Layer3And4) {
    function RecordId(): Option<string> { None }
    function GetMaxFlows(): Option<nat> { None }
    function GetIpfixRep(): Option<(Dict<IpfixTemplate.Value>, IpfixTemplate.MqttIpfix)> { None }
  }

  /** `FlowRecord.__init__`: the snapshot of the same packet, or the error
      its construction raised. */
  function NewFlowRecord(p: Packet): (r: Result<FlowRecord, RecordError>)
    ensures r.Success? <==> NewLayer3And4(p).Success?
    ensures r.Success? ==> r.value.layer3And4 == NewLayer3And4(p).value
    ensures r.Failure? ==> r.error == NewLayer3And4(p).error
  {
    var l :- NewLayer3And4(p);
    Success(FlowRecord(l))
  }

  /** The base record's hooks hold no behaviour. */
  lemma BaseHooksUnset(r: FlowRecord)
    ensures r.RecordId().None? && r.GetMaxFlows().None? && r.GetIpfixRep().None?
  {
  }
}
