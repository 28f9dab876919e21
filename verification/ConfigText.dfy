/** The tunnel configuration text the service writes for the WireGuard and AmneziaWG engines. */
module ConfigText {
  import opened Text
  import opened Contracts
  import Base64
  import Wire

  /** A text of lines, each ended by a carriage return and a line feed. */
  function CrLf(lines: seq<string>): string {
    if lines == [] then "" else lines[0] + "\r\n" + CrLf(lines[1..])
  }

  lemma {:induction false} CrLfAppend(a: seq<string>, b: seq<string>)
    ensures CrLf(a + b) == CrLf(a) + CrLf(b)
  {
    if a == [] {
      assert a + b == b;
    } else {
      assert (a + b)[1..] == a[1..] + b;
      CrLfAppend(a[1..], b);
    }
  }

  /** An IPv6 host is bracketed, so that the port's colon is not mistaken for one of its own. */
  function EndpointText(p: WireGuardProfile): string {
    (if ':' in p.endpointHost then "[" + p.endpointHost + "]" else p.endpointHost) + ":" + Dec(p.endpointPort)
  }

  type Field = (string, string)

  function FieldLine(f: Field): string { f.0 + " = " + f.1 }

  function FieldLines(fs: seq<Field>): (lines: seq<string>)
    ensures |lines| == |fs|
  {
    seq(|fs|, i requires 0 <= i < |fs| => FieldLine(fs[i]))
  }

  function InterfaceFields(p: WireGuardProfile): seq<Field> {
    [("PrivateKey", Base64.Encode(p.privateKey)), ("Address", Join(p.addresses, ", "))]
    + if p.dnsServers == [] then [] else [("DNS", Join(Wire.PrintAll(p.dnsServers), ", "))]
  }

  function PeerFields(p: WireGuardProfile): seq<Field> {
    [("PublicKey", Base64.Encode(p.peerPublicKey))]
    + (if p.presharedKey.Some? then [("PresharedKey", Base64.Encode(p.presharedKey.value))] else [])
    + [("Endpoint", EndpointText(p)), ("AllowedIPs", Join(p.allowedIps, ", "))]
    + if p.persistentKeepalive.Some? then [("PersistentKeepalive", Dec(p.persistentKeepalive.value))] else []
  }

  function SpecialFields(junk: seq<string>): (fs: seq<Field>)
    ensures |fs| == |junk|
  {
    seq(|junk|, i requires 0 <= i < |junk| => ("I" + Dec(i + 1), junk[i]))
  }

  function NumberFields(p: AmneziaWgProfile): seq<Field> {
    [("Jc", Dec(p.jc)), ("Jmin", Dec(p.jmin)), ("Jmax", Dec(p.jmax)), ("S1", Dec(p.s1)), ("S2", Dec(p.s2)),
     ("S3", Dec(p.s3)), ("S4", Dec(p.s4)), ("H1", p.h1), ("H2", p.h2), ("H3", p.h3), ("H4", p.h4)]
  }

  function AmneziaWgFields(p: AmneziaWgProfile): seq<Field> { NumberFields(p) + SpecialFields(p.specialJunk) }

  /** The lines of a configuration with the given extra fields in its interface section. */
  function ConfigLines(p: WireGuardProfile, extra: seq<Field>): seq<string> {
    ["[Interface]"] + FieldLines(InterfaceFields(p)) + FieldLines(extra) + ["", "[Peer]"] + FieldLines(PeerFields(p))
  }

  function WireGuardText(p: WireGuardProfile): string { CrLf(ConfigLines(p, [])) }

  function AmneziaWgText(p: AmneziaWgProfile): string { CrLf(ConfigLines(p.wireguard, AmneziaWgFields(p))) }

  ////////// The printers as they run //////////

  function Line(s: string): string { s + "\r\n" }

  lemma OneLine(s: string)
    ensures CrLf([s]) == Line(s)
  {
    assert [s][1..] == [];
    assert CrLf([]) == "";
  }

  /** Appends one line; `lines` are the lines of the text so far. */
  method WriteLine(config: string, s: string, ghost lines: seq<string>)
    returns (longer: string, ghost more: seq<string>)
    requires config == CrLf(lines)
    ensures more == lines + [s] && longer == CrLf(more)
  {
    longer := config + Line(s);
    more := lines + [s];
    CrLfAppend(lines, [s]);
    OneLine(s);
  }

  /** The interface part shared by both printers. */
  method WriteInterface(p: WireGuardProfile) returns (config: string, ghost lines: seq<string>)
    ensures lines == ["[Interface]"] + FieldLines(InterfaceFields(p)) && config == CrLf(lines)
  {
    hide Line, FieldLine, Base64.Encode, Join, Wire.PrintAll;
    config, lines := WriteLine("", "[Interface]", []);
    config, lines := WriteLine(config, FieldLine(("PrivateKey", Base64.Encode(p.privateKey))), lines);
    config, lines := WriteLine(config, FieldLine(("Address", Join(p.addresses, ", "))), lines);
    if p.dnsServers != [] {
      config, lines := WriteLine(config, FieldLine(("DNS", Join(Wire.PrintAll(p.dnsServers), ", "))), lines);
    }
    assert lines == ["[Interface]"] + FieldLines(InterfaceFields(p));
  }

  /** The peer part shared by both printers, after a blank line. */
  method WritePeer(p: WireGuardProfile, config0: string, ghost lines0: seq<string>)
    returns (config: string, ghost lines: seq<string>)
    requires config0 == CrLf(lines0)
    ensures lines == lines0 + (["", "[Peer]"] + FieldLines(PeerFields(p))) && config == CrLf(lines)
  {
    hide Line, FieldLine, Base64.Encode, Join, CrLf, EndpointText, Dec;
    config, lines := WriteLine(config0, "", lines0);
    config, lines := WriteLine(config, "[Peer]", lines);
    config, lines := WriteLine(config, FieldLine(("PublicKey", Base64.Encode(p.peerPublicKey))), lines);
    if p.presharedKey.Some? {
      config, lines := WriteLine(config, FieldLine(("PresharedKey", Base64.Encode(p.presharedKey.value))), lines);
    }
    config, lines := WriteLine(config, FieldLine(("Endpoint", EndpointText(p))), lines);
    config, lines := WriteLine(config, FieldLine(("AllowedIPs", Join(p.allowedIps, ", "))), lines);
    if p.persistentKeepalive.Some? {
      config, lines := WriteLine(config, FieldLine(("PersistentKeepalive", Dec(p.persistentKeepalive.value))), lines);
    }
    assert lines == lines0 + (["", "[Peer]"] + FieldLines(PeerFields(p)));
  }

  method RenderWireGuard(p: WireGuardProfile) returns (config: string)
    ensures config == WireGuardText(p)
  {
    hide CrLf, InterfaceFields, PeerFields;
    ghost var lines;
    config, lines := WriteInterface(p);
    config, lines := WritePeer(p, config, lines);
    assert lines == ConfigLines(p, []);
  }

  method WriteNumbers(p: AmneziaWgProfile, config0: string, ghost lines0: seq<string>)
    returns (config: string, ghost lines: seq<string>)
    requires config0 == CrLf(lines0)
    ensures lines == lines0 + FieldLines(NumberFields(p)) && config == CrLf(lines)
  {
    hide CrLf, FieldLine, Dec;
    config, lines := WriteLine(config0, FieldLine(("Jc", Dec(p.jc))), lines0);
    config, lines := WriteLine(config, FieldLine(("Jmin", Dec(p.jmin))), lines);
    config, lines := WriteLine(config, FieldLine(("Jmax", Dec(p.jmax))), lines);
    config, lines := WriteLine(config, FieldLine(("S1", Dec(p.s1))), lines);
    config, lines := WriteLine(config, FieldLine(("S2", Dec(p.s2))), lines);
    config, lines := WriteLine(config, FieldLine(("S3", Dec(p.s3))), lines);
    config, lines := WriteLine(config, FieldLine(("S4", Dec(p.s4))), lines);
    config, lines := WriteLine(config, FieldLine(("H1", p.h1)), lines);
    config, lines := WriteLine(config, FieldLine(("H2", p.h2)), lines);
    config, lines := WriteLine(config, FieldLine(("H3", p.h3)), lines);
    config, lines := WriteLine(config, FieldLine(("H4", p.h4)), lines);
    assert lines == lines0 + FieldLines(NumberFields(p));
  }

  method WriteSpecialJunk(junk: seq<string>, config0: string, ghost lines0: seq<string>)
    returns (config: string, ghost lines: seq<string>)
    requires config0 == CrLf(lines0)
    ensures lines == lines0 + FieldLines(SpecialFields(junk)) && config == CrLf(lines)
  {
    hide CrLf, FieldLine, Dec;
    config, lines := config0, lines0;
    for index := 0 to |junk|
      invariant config == CrLf(lines) && lines == lines0 + FieldLines(SpecialFields(junk)[..index])
    {
      config, lines := WriteLine(config, FieldLine(("I" + Dec(index + 1), junk[index])), lines);
      assert SpecialFields(junk)[..index + 1] == SpecialFields(junk)[..index] + [("I" + Dec(index + 1), junk[index])];
    }
    assert SpecialFields(junk)[..|junk|] == SpecialFields(junk);
  }

  method RenderAmneziaWg(p: AmneziaWgProfile) returns (config: string)
    ensures config == AmneziaWgText(p)
  {
    hide CrLf, InterfaceFields, PeerFields, FieldLine, NumberFields;
    ghost var lines;
    config, lines := WriteInterface(p.wireguard);
    config, lines := WriteNumbers(p, config, lines);
    config, lines := WriteSpecialJunk(p.specialJunk, config, lines);
    config, lines := WritePeer(p.wireguard, config, lines);
    assert FieldLines(AmneziaWgFields(p)) == FieldLines(NumberFields(p)) + FieldLines(SpecialFields(p.specialJunk));
    assert lines == ConfigLines(p.wireguard, AmneziaWgFields(p));
  }
}
