/** The configuration texts as the service writes them, line by line. */
module ConfigLayout {
  import opened Basics
  import opened Text
  import opened Contracts
  import opened ConfigText
  import Base64
  import Wire

  function Shown(key: string, value: string): string { key + " = " + value + "\r\n" }

  function ShownAll(fields: seq<Field>): string {
    if fields == [] then "" else Shown(fields[0].0, fields[0].1) + ShownAll(fields[1..])
  }

  lemma {:induction false} ShownLines(fields: seq<Field>)
    ensures CrLf(FieldLines(fields)) == ShownAll(fields)
  {
    if fields != [] {
      assert FieldLines(fields)[1..] == FieldLines(fields[1..]);
      ShownLines(fields[1..]);
    }
  }

  lemma {:induction false} ShownAppend(a: seq<Field>, b: seq<Field>)
    ensures ShownAll(a + b) == ShownAll(a) + ShownAll(b)
  {
    hide Shown;
    if a == [] {
      assert a + b == b;
    } else {
      assert (a + b)[1..] == a[1..] + b;
      ShownAppend(a[1..], b);
    }
  }

  lemma ShownOne(key: string, value: string)
    ensures ShownAll([(key, value)]) == Shown(key, value)
  {
    hide Shown;
    assert [(key, value)][1..] == [];
    assert ShownAll([]) == "";
  }

  lemma NothingShown()
    ensures ShownAll([]) == ""
  {
  }

  function InterfaceText(p: WireGuardProfile): string {
    "[Interface]\r\n"
    + (Shown("PrivateKey", Base64.Encode(p.privateKey))
    + (Shown("Address", Join(p.addresses, ", "))
    + if p.dnsServers == [] then "" else Shown("DNS", Join(Wire.PrintAll(p.dnsServers), ", "))))
  }

  function PeerText(p: WireGuardProfile): string {
    "\r\n[Peer]\r\n"
    + (Shown("PublicKey", Base64.Encode(p.peerPublicKey))
    + ((match p.presharedKey case None => "" case Some(key) => Shown("PresharedKey", Base64.Encode(key)))
    + (Shown("Endpoint", (if ':' in p.endpointHost then "[" + p.endpointHost + "]" else p.endpointHost)
        + ":" + Dec(p.endpointPort))
    + (Shown("AllowedIPs", Join(p.allowedIps, ", "))
    + match p.persistentKeepalive case None => "" case Some(n) => Shown("PersistentKeepalive", Dec(n))))))
  }

  function NumbersText(p: AmneziaWgProfile): string {
    Shown("Jc", Dec(p.jc)) + (Shown("Jmin", Dec(p.jmin)) + (Shown("Jmax", Dec(p.jmax))
    + (Shown("S1", Dec(p.s1)) + (Shown("S2", Dec(p.s2)) + (Shown("S3", Dec(p.s3)) + (Shown("S4", Dec(p.s4))
    + (Shown("H1", p.h1) + (Shown("H2", p.h2) + (Shown("H3", p.h3) + Shown("H4", p.h4))))))))))
  }

  /** The special packets, numbered from the given one on. */
  function PacketsText(junk: seq<string>, index: nat): string
    decreases junk
  {
    if junk == [] then "" else Shown("I" + Dec(index), junk[0]) + PacketsText(junk[1..], index + 1)
  }

  lemma InterfaceShown(p: WireGuardProfile)
    ensures CrLf(["[Interface]"] + FieldLines(InterfaceFields(p))) == InterfaceText(p)
  {
    hide Shown, Base64.Encode, Join, Wire.PrintAll, CrLf;
    CrLfAppend(["[Interface]"], FieldLines(InterfaceFields(p)));
    OneLine("[Interface]");
    ShownLines(InterfaceFields(p));
    var key, address := ("PrivateKey", Base64.Encode(p.privateKey)), ("Address", Join(p.addresses, ", "));
    assert [key, address] == [key] + [address];
    ShownAppend([key], [address]);
    ShownOne(key.0, key.1);
    ShownOne(address.0, address.1);
    if p.dnsServers == [] {
      assert InterfaceFields(p) == [key, address];
    } else {
      var dns := ("DNS", Join(Wire.PrintAll(p.dnsServers), ", "));
      ShownAppend([key, address], [dns]);
      ShownOne(dns.0, dns.1);
    }
  }

  lemma PeerShown(p: WireGuardProfile)
    ensures CrLf(["", "[Peer]"] + FieldLines(PeerFields(p))) == PeerText(p)
  {
    hide Shown, Base64.Encode, Join, CrLf, Dec, EndpointText;
    CrLfAppend(["", "[Peer]"], FieldLines(PeerFields(p)));
    TwoLines();
    ShownLines(PeerFields(p));
    var key := [("PublicKey", Base64.Encode(p.peerPublicKey))];
    var preshared := if p.presharedKey.Some? then [("PresharedKey", Base64.Encode(p.presharedKey.value))] else [];
    var endpoint, allowed := ("Endpoint", EndpointText(p)), ("AllowedIPs", Join(p.allowedIps, ", "));
    var keepalive := if p.persistentKeepalive.Some? then [("PersistentKeepalive", Dec(p.persistentKeepalive.value))]
      else [];
    ShownAppend(key + preshared + [endpoint, allowed], keepalive);
    ShownAppend(key + preshared, [endpoint, allowed]);
    ShownAppend(key, preshared);
    assert [endpoint, allowed] == [endpoint] + [allowed];
    ShownAppend([endpoint], [allowed]);
    ShownOne(key[0].0, key[0].1);
    ShownOne(endpoint.0, endpoint.1);
    ShownOne(allowed.0, allowed.1);
    NothingShown();
    if p.presharedKey.Some? { ShownOne(preshared[0].0, preshared[0].1); }
    if p.persistentKeepalive.Some? { ShownOne(keepalive[0].0, keepalive[0].1); }
    assert EndpointText(p) == (if ':' in p.endpointHost then "[" + p.endpointHost + "]" else p.endpointHost)
      + ":" + Dec(p.endpointPort) by { EndpointShown(p); }
  }

  lemma EndpointShown(p: WireGuardProfile)
    ensures EndpointText(p) == (if ':' in p.endpointHost then "[" + p.endpointHost + "]" else p.endpointHost)
      + ":" + Dec(p.endpointPort)
  {
  }

  lemma TwoLines()
    ensures CrLf(["", "[Peer]"]) == "\r\n[Peer]\r\n"
  {
    assert ["", "[Peer]"][1..] == ["[Peer]"];
    OneLine("[Peer]");
  }

  lemma MoreShown(f: Field, fs: seq<Field>)
    ensures ShownAll([f] + fs) == Shown(f.0, f.1) + ShownAll(fs)
  {
    hide Shown;
    assert ([f] + fs)[1..] == fs;
  }

  lemma NumbersShown(p: AmneziaWgProfile)
    ensures ShownAll(NumberFields(p)) == NumbersText(p)
  {
    hide Shown, ShownAll, Dec;
    var h4: seq<Field> := [("H4", p.h4)];
    var h3 := [("H3", p.h3)] + h4;
    var h2 := [("H2", p.h2)] + h3;
    var h1 := [("H1", p.h1)] + h2;
    var s4 := [("S4", Dec(p.s4))] + h1;
    var s3 := [("S3", Dec(p.s3))] + s4;
    var s2 := [("S2", Dec(p.s2))] + s3;
    var s1 := [("S1", Dec(p.s1))] + s2;
    var jmax := [("Jmax", Dec(p.jmax))] + s1;
    var jmin := [("Jmin", Dec(p.jmin))] + jmax;
    assert NumberFields(p) == [("Jc", Dec(p.jc))] + jmin;
    ShownOne("H4", p.h4);
    MoreShown(("H3", p.h3), h4);
    MoreShown(("H2", p.h2), h3);
    MoreShown(("H1", p.h1), h2);
    MoreShown(("S4", Dec(p.s4)), h1);
    MoreShown(("S3", Dec(p.s3)), s4);
    MoreShown(("S2", Dec(p.s2)), s3);
    MoreShown(("S1", Dec(p.s1)), s2);
    MoreShown(("Jmax", Dec(p.jmax)), s1);
    MoreShown(("Jmin", Dec(p.jmin)), jmax);
    MoreShown(("Jc", Dec(p.jc)), jmin);
  }

  lemma {:induction false} PacketsShown(junk: seq<string>, n: nat)
    requires n <= |junk|
    ensures ShownAll(SpecialFields(junk)[n..]) == PacketsText(junk[n..], n + 1)
    decreases |junk| - n
  {
    hide Shown, Dec;
    if n < |junk| {
      PacketsShown(junk, n + 1);
      assert SpecialFields(junk)[n..][1..] == SpecialFields(junk)[n + 1..] && junk[n..][1..] == junk[n + 1..];
    }
  }

  /** The text for the WireGuard engine. */
  lemma WireGuardShown(p: WireGuardProfile)
    ensures WireGuardText(p) == InterfaceText(p) + PeerText(p)
  {
    hide CrLf, InterfaceFields, PeerFields, InterfaceText, PeerText;
    InterfaceShown(p);
    PeerShown(p);
    var head, tail := ["[Interface]"] + FieldLines(InterfaceFields(p)), ["", "[Peer]"] + FieldLines(PeerFields(p));
    assert FieldLines([]) == [];
    assert ConfigLines(p, []) == head + tail;
    CrLfAppend(head, tail);
  }

  /** The text for the AmneziaWG engine: its own lines stand at the end of the interface section. */
  lemma AmneziaWgShown(p: AmneziaWgProfile)
    ensures AmneziaWgText(p) == InterfaceText(p.wireguard) + (NumbersText(p) + (PacketsText(p.specialJunk, 1)
      + PeerText(p.wireguard)))
  {
    hide CrLf, InterfaceFields, PeerFields, InterfaceText, PeerText, NumberFields, SpecialFields, NumbersText,
         PacketsText;
    var base := p.wireguard;
    InterfaceShown(base);
    PeerShown(base);
    NumbersShown(p);
    PacketsShown(p.specialJunk, 0);
    assert SpecialFields(p.specialJunk)[0..] == SpecialFields(p.specialJunk) && p.specialJunk[0..] == p.specialJunk;
    ShownAppend(NumberFields(p), SpecialFields(p.specialJunk));
    ShownLines(AmneziaWgFields(p));
    var head := ["[Interface]"] + FieldLines(InterfaceFields(base));
    var tail := ["", "[Peer]"] + FieldLines(PeerFields(base));
    assert ConfigLines(base, AmneziaWgFields(p)) == head + (FieldLines(AmneziaWgFields(p)) + tail);
    CrLfAppend(head, FieldLines(AmneziaWgFields(p)) + tail);
    CrLfAppend(FieldLines(AmneziaWgFields(p)), tail);
  }
}
