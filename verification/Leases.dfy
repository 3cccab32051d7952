/** Guest addressing: the MAC derived from an address, the static DHCP leases and the advertised routes. */
module Leases {
  import opened Wrappers
  import opened Text
  import opened Address
  import opened Config
  import opened Firewall
  import Policy

  /* ---- MAC addresses ---- */

  function MacParts(a: Ipv4): (parts: seq<string>)
    ensures |parts| == 6
  {
    ["52", "54", "00", Hex2(Octet(a, 1)), Hex2(Octet(a, 2)), Hex2(Octet(a, 3))]
  }

  // "52:54:00:" and the low three octets in hexadecimal.
  function MacAddress(vm: Vm): string { Join(MacParts(vm.address), ':') }

  function Low24(a: Ipv4): nat { a % 0x100_0000 }

  function ParseMac(s: string): Option<nat> {
    var parts := Split(s, ':');
    if |parts| != 6 || parts[..3] != ["52", "54", "00"] then None
    else match (ParseHex2(parts[3]), ParseHex2(parts[4]), ParseHex2(parts[5]))
      case (Some(a), Some(b), Some(c)) => Some(a * 0x1_0000 + b * 0x100 + c)
      case _ => None
  }

  lemma MacText(a: Ipv4)
    ensures Split(Join(MacParts(a), ':'), ':') == MacParts(a)
    ensures forall c :: c in Join(MacParts(a), ':') ==> c != ',' && c != '\n'
  {
    var parts := MacParts(a);
    MacPartsPlain(a);
    SplitJoin(parts, ':');
    JoinAvoids(parts, ':', ',');
    JoinAvoids(parts, ':', '\n');
  }

  lemma MacPartsPlain(a: Ipv4)
    ensures forall p :: p in MacParts(a) ==> ':' !in p && ',' !in p && '\n' !in p
  {
  }

  lemma HexParts(a: Ipv4)
    ensures ParseHex2(Hex2(Octet(a, 1))) == Some(Octet(a, 1))
    ensures ParseHex2(Hex2(Octet(a, 2))) == Some(Octet(a, 2))
    ensures ParseHex2(Hex2(Octet(a, 3))) == Some(Octet(a, 3))
    ensures Octet(a, 1) * 0x1_0000 + Octet(a, 2) * 0x100 + Octet(a, 3) == Low24(a)
  {
    Hex2RoundTrip(Octet(a, 1));
    Hex2RoundTrip(Octet(a, 2));
    Hex2RoundTrip(Octet(a, 3));
    OctetsRoundTrip(a);
  }

  lemma MacRoundTrip(vm: Vm)
    ensures ParseMac(MacAddress(vm)) == Some(Low24(vm.address))
    ensures forall c :: c in MacAddress(vm) ==> c != ',' && c != '\n'
  {
    MacText(vm.address);
    HexParts(vm.address);
    assert MacParts(vm.address)[..3] == ["52", "54", "00"];
  }

  // The address a MAC stands for in a subnet whose first octet is fixed.
  function AddressOfMac(net: IpNet, mac: nat): Ipv4
    requires net.V4? && mac < 0x100_0000
  {
    Octet(Network(net), 0) * 0x100_0000 + mac
  }

  // A MAC gives back the VM's address when the prefix has at least eight bits.
  lemma MacGivesAddress(c: Config, e: Entry<Vm>)
    requires WellFormed(c) && e in c.vms && c.network.guestSubnet.len >= 8
    ensures var mac := ParseMac(MacAddress(e.value));
            mac.Some? && mac.value < 0x100_0000 && AddressOfMac(c.network.guestSubnet, mac.value) == e.value.address
  {
    MacRoundTrip(e.value);
    SharedFirstOctet(c.network.guestSubnet, e.value.address);
  }

  // MAC derivation is injective on a validated subnet exactly when its prefix has at least eight bits;
  // 10.0.0.0/7 is the one shape that validation lets through and that collides.
  lemma MacInjectiveIff(net: IpNet, x: Vm, y: Vm)
    requires PrivateSubnet(net)
    ensures net.len >= 8 ==> (InSubnet(net, x.address) && InSubnet(net, y.address) && MacAddress(x) == MacAddress(y)
                              ==> x.address == y.address)
    ensures net.len < 8 ==> exists a: Ipv4, b: Ipv4 ::
              a != b && InSubnet(net, a) && InSubnet(net, b)
              && MacAddress(x.(address := a)) == MacAddress(x.(address := b))
  {
    if net.len >= 8 {
      if InSubnet(net, x.address) && InSubnet(net, y.address) && MacAddress(x) == MacAddress(y) {
        MacRoundTrip(x);
        MacRoundTrip(y);
        SharedFirstOctet(net, x.address);
        SharedFirstOctet(net, y.address);
      }
    } else {
      var a := Network(net);
      WidestBlock(net);
      var b: Ipv4 := a + 0x100_0000;
      assert InSubnet(net, a) && InSubnet(net, b);
      SameMac(x, a, b);
    }
  }

  // The network card of the router on the guest network.
  const ROUTER_MAC := "52:54:00:00:00:02"

  lemma SameMacIff(a: Ipv4, b: Ipv4)
    ensures Join(MacParts(a), ':') == Join(MacParts(b), ':') <==> Low24(a) == Low24(b)
  {
    if Join(MacParts(a), ':') == Join(MacParts(b), ':') {
      MacText(a);
      MacText(b);
      SamePartsSameLow(a, b);
    }
    if Low24(a) == Low24(b) {
      SameLowSameParts(a, b);
    }
  }

  lemma SamePartsSameLow(a: Ipv4, b: Ipv4)
    requires MacParts(a) == MacParts(b)
    ensures Low24(a) == Low24(b)
  {
    HexParts(a);
    HexParts(b);
    assert forall i :: 3 <= i < 6 ==> MacParts(a)[i] == MacParts(b)[i];
  }

  lemma SameLowSameParts(a: Ipv4, b: Ipv4)
    requires Low24(a) == Low24(b)
    ensures MacParts(a) == MacParts(b)
  {
    LowGivesOctets(a);
    LowGivesOctets(b);
  }

  lemma LowGivesOctets(a: Ipv4)
    ensures Octet(a, 1) == Low24(a) / 0x1_0000
    ensures Octet(a, 2) == Low24(a) / 0x100 % 0x100
    ensures Octet(a, 3) == Low24(a) % 0x100
  {
    var (q, r) := (a / 0x100_0000, Low24(a));
    assert a == r + q * 0x100_0000;
    DivShift(r, 0x1_0000, q * 0x100);
    DivShift(r, 0x100, q * 0x1_0000);
    DivShift(r / 0x1_0000, 0x100, q);
    DivShift(r / 0x100, 0x100, q * 0x100);
  }

  lemma JoinSix(a: string, b: string, c: string, d: string, e: string, f: string)
    ensures Join([a, b, c, d, e, f], ':') == a + ":" + b + ":" + c + ":" + d + ":" + e + ":" + f
  {
    JoinTwo(e, f, ':');
    JoinMore(d, [e, f], ':');
    JoinMore(c, [d, e, f], ':');
    JoinMore(b, [c, d, e, f], ':');
    JoinMore(a, [b, c, d, e, f], ':');
  }

  lemma JoinTwo(a: string, b: string, sep: char)
    ensures Join([a, b], sep) == a + [sep] + b
  {
    assert [a, b][1..] == [b];
  }

  lemma JoinMore(a: string, rest: seq<string>, sep: char)
    requires rest != []
    ensures Join([a] + rest, sep) == a + [sep] + Join(rest, sep)
  {
    assert ([a] + rest)[1..] == rest;
  }

  lemma RouterMacParts()
    ensures Join(MacParts(2), ':') == ROUTER_MAC
  {
    RouterOctets();
    JoinSix("52", "54", "00", "00", "00", "02");
  }

  lemma RouterOctets()
    ensures MacParts(2) == ["52", "54", "00", "00", "00", "02"]
  {
    assert Hex2(0) == "00" && Hex2(2) == "02";
  }

  // Every card on the guest network has a MAC of its own.
  predicate GuestMacsDiffer(c: Config) {
    && (forall i, j :: 0 <= i < j < |c.vms| ==> MacAddress(c.vms[i].value) != MacAddress(c.vms[j].value))
    && (forall i :: 0 <= i < |c.vms| ==> MacAddress(c.vms[i].value) != ROUTER_MAC)
  }

  // That is so exactly when no two VMs share the last three octets and none has those of x.0.0.2, the
  // router's; with a prefix of at least eight bits only the latter has to be looked at.
  lemma GuestMacsDifferIff(c: Config)
    requires WellFormed(c)
    ensures GuestMacsDiffer(c) <==>
            && (forall i, j :: 0 <= i < j < |c.vms| ==> Low24(c.vms[i].value.address) != Low24(c.vms[j].value.address))
            && (forall i :: 0 <= i < |c.vms| ==> Low24(c.vms[i].value.address) != 2)
    ensures c.network.guestSubnet.len >= 8 ==>
              (GuestMacsDiffer(c) <==> forall i :: 0 <= i < |c.vms| ==> Low24(c.vms[i].value.address) != 2)
  {
    RouterMacParts();
    forall i | 0 <= i < |c.vms|
      ensures MacAddress(c.vms[i].value) == ROUTER_MAC <==> Low24(c.vms[i].value.address) == 2
    {
      SameMacIff(c.vms[i].value.address, 2);
    }
    forall i, j | 0 <= i < j < |c.vms|
      ensures MacAddress(c.vms[i].value) == MacAddress(c.vms[j].value) <==>
              Low24(c.vms[i].value.address) == Low24(c.vms[j].value.address)
      ensures c.network.guestSubnet.len >= 8 ==> MacAddress(c.vms[i].value) != MacAddress(c.vms[j].value)
    {
      SameMacIff(c.vms[i].value.address, c.vms[j].value.address);
      assert c.vms[i] in c.vms && c.vms[j] in c.vms;
      MacInjectiveIff(c.network.guestSubnet, c.vms[i].value, c.vms[j].value);
    }
  }

  // The failing input: validation accepts 10.0.0.2 in 10.0.0.0/24, and its MAC is the router's.
  lemma RouterMacTaken(vm: Vm)
    requires vm.address == 0x0A00_0002
    ensures PrivateSubnet(V4(0x0A00_0000, 24)) && InSubnet(V4(0x0A00_0000, 24), vm.address)
    ensures MacAddress(vm) == ROUTER_MAC
  {
    TenNetwork();
    RouterMacByLow(vm);
  }

  lemma RouterMacByLow(vm: Vm)
    requires Low24(vm.address) == 2
    ensures MacAddress(vm) == ROUTER_MAC
  {
    RouterMacParts();
    SameMacIff(vm.address, 2);
  }

  lemma TenNetwork()
    ensures PrivateSubnet(V4(0x0A00_0000, 24)) && InSubnet(V4(0x0A00_0000, 24), 0x0A00_0002)
  {
    FourMore(0);
    FourMore(4);
    assert Network(V4(0x0A00_0000, 24)) == 0x0A00_0000;
  }

  lemma WidestBlock(net: IpNet)
    requires PrivateSubnet(net) && net.len < 8
    ensures Network(net) == TEN && BlockSize(net.len) == 0x200_0000
  {
    Powers();
    GuestBlock(net, Network(net));
    assert net.len == 7;
    AlignedBlock(net.addr / BlockSize(net.len), 25, TEN, 2, 25);
  }

  lemma SameMac(x: Vm, a: Ipv4, b: Ipv4)
    requires b == a + 0x100_0000
    ensures MacAddress(x.(address := a)) == MacAddress(x.(address := b))
  {
    SameParts(a, b);
  }

  lemma SameParts(a: Ipv4, b: Ipv4)
    requires b == a + 0x100_0000
    ensures MacParts(a) == MacParts(b)
  {
    LowOctets(a);
  }

  lemma LowOctets(a: nat)
    requires a + 0x100_0000 < 0x1_0000_0000
    ensures Octet(a, 1) == Octet(a + 0x100_0000, 1)
    ensures Octet(a, 2) == Octet(a + 0x100_0000, 2)
    ensures Octet(a, 3) == Octet(a + 0x100_0000, 3)
  {
    DivShift(a, 0x1_0000, 0x100);
    DivShift(a, 0x100, 0x1_0000);
    DivShift(a / 0x1_0000, 0x100, 1);
    DivShift(a / 0x100, 0x100, 0x100);
    DivShift(a, 0x100, 0x1_0000);
  }

  // Adding whole multiples shifts the quotient and leaves the remainder.
  lemma DivShift(a: nat, d: nat, q: nat)
    requires d > 0
    ensures (a + q * d) / d == a / d + q && (a + q * d) % d == a % d
  {
    DivMod(a, d);
    Distributes(a / d, q, d);
    DivUnique(a + q * d, d, a / d + q);
  }

  /* ---- leases ---- */

  const HOST_PREFIX := "dhcp-host="

  datatype Lease = Lease(mac: nat, address: Ipv4, name: string)

  function LeaseParts(vm: Vm): seq<string> {
    [HOST_PREFIX + MacAddress(vm), Dotted(vm.address), vm.name, "infinite"]
  }

  function LeaseLine(vm: Vm): string { Join(LeaseParts(vm), ',') }

  function LeaseLines(vms: seq<Entry<Vm>>): (lines: seq<string>)
    ensures |lines| == |vms| && forall i :: 0 <= i < |vms| ==> lines[i] == LeaseLine(vms[i].value)
  {
    seq(|vms|, i requires 0 <= i < |vms| => LeaseLine(vms[i].value))
  }

  function HeaderLines(c: Config): seq<string>
    requires c.network.guestSubnet.V4?
  {
    [ "interface=" + c.router.guestInterface,
      "bind-dynamic",
      "dhcp-authoritative",
      "dhcp-range=" + Dotted(Network(c.network.guestSubnet)) + ",static," + Dotted(Netmask(c.network.guestSubnet.len))
      + ",12h",
      "dhcp-option=option:router," + Dotted(c.router.lanAddress),
      "dhcp-option=option:dns-server," + Dotted(c.router.lanAddress) ]
  }

  // Every line with its newline.
  function Unlines(lines: seq<string>): string {
    if lines == [] then "" else Unlines(lines[..|lines| - 1]) + lines[|lines| - 1] + "\n"
  }

  method DnsmasqConfig(c: Config) returns (output: string)
    requires c.network.guestSubnet.V4?
    ensures output == Unlines(HeaderLines(c) + LeaseLines(c.vms))
  {
    output := PushLines(HeaderLines(c), LeaseLines(c.vms));
  }

  // The loop over the VMs: each lease line is appended with its newline.
  method PushLines(header: seq<string>, lines: seq<string>) returns (output: string)
    ensures output == Unlines(header + lines)
  {
    output := Unlines(header);
    assert header + lines[..0] == header;
    for i := 0 to |lines|
      invariant output == Unlines(header + lines[..i])
    {
      output := output + lines[i] + "\n";
      assert (header + lines[..i + 1])[..|header| + i] == header + lines[..i];
    }
    assert lines[..|lines|] == lines;
  }

  /* ---- reading the leases back ---- */

  function ParseLease(line: string): Option<Lease> {
    var parts := Split(line, ',');
    if |parts| != 4 || !(HOST_PREFIX <= parts[0]) || parts[3] != "infinite" then None
    else match (ParseMac(parts[0][|HOST_PREFIX|..]), ParseDotted(parts[1]))
      case (Some(mac), Some(address)) => Some(Lease(mac, address, parts[2]))
      case _ => None
  }

  // The static hosts of a configuration text: every line with the host prefix.
  function HostLines(lines: seq<string>): seq<string> {
    if lines == [] then []
    else
      HostLines(lines[..|lines| - 1]) + if HOST_PREFIX <= lines[|lines| - 1] then [lines[|lines| - 1]] else []
  }

  lemma {:induction false} SplitUnlines(lines: seq<string>)
    requires forall i :: 0 <= i < |lines| ==> '\n' !in lines[i]
    ensures Split(Unlines(lines), '\n') == lines + [""]
  {
    UnlinesIsJoin(lines);
    var all := lines + [""];
    forall p | p in all
      ensures '\n' !in p
    {
    }
    SplitJoin(all, '\n');
  }

  lemma {:induction false} UnlinesIsJoin(lines: seq<string>)
    ensures Unlines(lines) == Join(lines + [""], '\n')
  {
    if lines != [] {
      var front, last := lines[..|lines| - 1], lines[|lines| - 1];
      UnlinesIsJoin(front);
      assert front + [last] == lines;
      JoinReplaceLast(front, last);
    }
  }

  lemma {:induction false} JoinReplaceLast(front: seq<string>, last: string)
    ensures Join(front + [last] + [""], '\n') == Join(front + [""], '\n') + last + "\n"
  {
    var all, before := front + [last] + [""], front + [""];
    if front == [] {
      assert all == [last, ""] && all[1..] == [""];
    } else {
      JoinReplaceLast(front[1..], last);
      assert all[1..] == front[1..] + [last] + [""];
      assert before[1..] == front[1..] + [""];
    }
  }

  lemma DottedIsPlain(a: Ipv4)
    ensures forall c :: c in Dotted(a) ==> c != ',' && c != '\n' && c != '/'
  {
    DottedRoundTrip(a);
  }

  lemma LineOfParts(mac: string, address: string, name: string)
    requires ',' !in mac && ',' !in address && ',' !in name
    requires '\n' !in mac && '\n' !in address && '\n' !in name
    ensures var parts := [HOST_PREFIX + mac, address, name, "infinite"];
            && Split(Join(parts, ','), ',') == parts
            && '\n' !in Join(parts, ',')
            && HOST_PREFIX <= parts[0] <= Join(parts, ',')
            && parts[0][|HOST_PREFIX|..] == mac
  {
    var parts := [HOST_PREFIX + mac, address, name, "infinite"];
    PrefixIsPlain();
    assert forall p :: p in parts ==> ',' !in p && '\n' !in p;
    SplitJoin(parts, ',');
    JoinAvoids(parts, ',', '\n');
  }

  lemma PrefixIsPlain()
    ensures ',' !in HOST_PREFIX && '\n' !in HOST_PREFIX && ',' !in "infinite" && '\n' !in "infinite"
  {
  }

  lemma NameIsPlain(name: string)
    requires IsIdentifier(name)
    ensures ',' !in name && '\n' !in name
  {
  }

  lemma LeaseRoundTrip(vm: Vm)
    requires IsIdentifier(vm.name)
    ensures ParseLease(LeaseLine(vm)) == Some(Lease(Low24(vm.address), vm.address, vm.name))
    ensures HOST_PREFIX <= LeaseLine(vm) && '\n' !in LeaseLine(vm)
  {
    MacRoundTrip(vm);
    DottedRoundTrip(vm.address);
    DottedIsPlain(vm.address);
    NameIsPlain(vm.name);
    LineOfParts(MacAddress(vm), Dotted(vm.address), vm.name);
  }

  // A lease line begins with the network card it is for.
  lemma LeaseStart(vm: Vm)
    requires IsIdentifier(vm.name)
    ensures Split(LeaseLine(vm), ',')[0] == HOST_PREFIX + MacAddress(vm)
  {
    MacRoundTrip(vm);
    DottedRoundTrip(vm.address);
    DottedIsPlain(vm.address);
    NameIsPlain(vm.name);
    LineOfParts(MacAddress(vm), Dotted(vm.address), vm.name);
  }

  lemma HostLinesSnoc(lines: seq<string>, line: string)
    ensures HostLines(lines + [line]) == HostLines(lines) + if HOST_PREFIX <= line then [line] else []
  {
    assert (lines + [line])[..|lines|] == lines;
  }

  lemma {:induction false} HostLinesAppend(before: seq<string>, lines: seq<string>)
    requires HostLines(before) == []
    requires forall i :: 0 <= i < |lines| ==> HOST_PREFIX <= lines[i]
    ensures HostLines(before + lines) == lines
  {
    if lines == [] {
      assert before + lines == before;
    } else {
      var front, last := lines[..|lines| - 1], lines[|lines| - 1];
      HostLinesAppend(before, front);
      HostLinesSnoc(before + front, last);
      assert front + [last] == lines;
      assert before + lines == before + front + [last];
    }
  }

  // A line that is neither a host line nor broken in two.
  predicate Other(line: string) { '\n' !in line && !(HOST_PREFIX <= line) }

  lemma OtherLine(prefix: string, rest: string, k: nat)
    requires '\n' !in prefix && '\n' !in rest
    requires k < |prefix| && k < |HOST_PREFIX| && prefix[k] != HOST_PREFIX[k]
    ensures Other(prefix + rest)
  {
    assert (prefix + rest)[k] == prefix[k];
  }

  lemma HeaderStart(c: Config)
    requires WellFormed(c)
    ensures var h := HeaderLines(c); Other(h[0]) && Other(h[1]) && Other(h[2])
  {
    NameIsPlain(c.router.guestInterface);
    OtherLine("interface=", c.router.guestInterface, 0);
    assert Other("bind-dynamic") by { assert "bind-dynamic"[0] == 'b'; }
    assert Other("dhcp-authoritative") by { assert "dhcp-authoritative"[5] == 'a'; }
  }

  lemma RangeLine(first: string, mask: string)
    requires '\n' !in first && '\n' !in mask
    ensures Other("dhcp-range=" + first + ",static," + mask + ",12h")
  {
    var rest := first + ",static," + mask + ",12h";
    OtherLine("dhcp-range=", rest, 5);
    assert "dhcp-range=" + first + ",static," + mask + ",12h" == "dhcp-range=" + rest;
  }

  lemma OptionLines(address: string)
    requires '\n' !in address
    ensures Other("dhcp-option=option:router," + address) && Other("dhcp-option=option:dns-server," + address)
  {
    OtherLine("dhcp-option=option:router,", address, 5);
    OtherLine("dhcp-option=option:dns-server,", address, 5);
  }

  lemma HeaderEnd(c: Config)
    requires WellFormed(c)
    ensures var h := HeaderLines(c); Other(h[3]) && Other(h[4]) && Other(h[5])
  {
    DottedIsPlain(Network(c.network.guestSubnet));
    DottedIsPlain(Netmask(c.network.guestSubnet.len));
    DottedIsPlain(c.router.lanAddress);
    RangeLine(Dotted(Network(c.network.guestSubnet)), Dotted(Netmask(c.network.guestSubnet.len)));
    OptionLines(Dotted(c.router.lanAddress));
  }

  lemma {:induction false} NoHosts(lines: seq<string>)
    requires forall i :: 0 <= i < |lines| ==> !(HOST_PREFIX <= lines[i])
    ensures HostLines(lines) == []
  {
    if lines != [] {
      NoHosts(lines[..|lines| - 1]);
    }
  }

  // The generated text parses back to exactly one lease per VM, in inventory order, with its MAC,
  // address and name.
  lemma LeasesParse(c: Config)
    requires WellFormed(c)
    ensures var hosts := HostLines(Split(Unlines(HeaderLines(c) + LeaseLines(c.vms)), '\n'));
            && |hosts| == |c.vms|
            && forall i :: 0 <= i < |c.vms| ==>
                 var vm := c.vms[i].value;
                 ParseLease(hosts[i]) == Some(Lease(Low24(vm.address), vm.address, vm.name))
  {
    HeaderStart(c);
    HeaderEnd(c);
    forall i | 0 <= i < |c.vms|
      ensures '\n' !in LeaseLines(c.vms)[i] && HOST_PREFIX <= LeaseLines(c.vms)[i]
      ensures var vm := c.vms[i].value;
              ParseLease(LeaseLines(c.vms)[i]) == Some(Lease(Low24(vm.address), vm.address, vm.name))
    {
      LeaseOf(c, i);
    }
    TextHosts(HeaderLines(c), LeaseLines(c.vms));
  }

  lemma LeaseOf(c: Config, i: nat)
    requires WellFormed(c) && i < |c.vms|
    ensures var (line, vm) := (LeaseLines(c.vms)[i], c.vms[i].value);
            '\n' !in line && HOST_PREFIX <= line && ParseLease(line) == Some(Lease(Low24(vm.address), vm.address, vm.name))
  {
    assert c.vms[i] in c.vms;
    LeaseRoundTrip(c.vms[i].value);
  }

  lemma TextHosts(header: seq<string>, lines: seq<string>)
    requires forall i :: 0 <= i < |header| ==> Other(header[i])
    requires forall i :: 0 <= i < |lines| ==> '\n' !in lines[i] && HOST_PREFIX <= lines[i]
    ensures HostLines(Split(Unlines(header + lines), '\n')) == lines
  {
    SplitUnlines(header + lines);
    NoHosts(header);
    HostLinesAppend(header, lines);
    HostLinesSnoc(header + lines, "");
  }

  /* ---- reading the header back ---- */

  // What follows the key in the first line that begins with it.
  function ValueOf(lines: seq<string>, key: string): Option<string> {
    if lines == [] then None
    else if key <= lines[0] then Some(lines[0][|key|..])
    else ValueOf(lines[1..], key)
  }

  lemma {:induction false} FirstWith(lines: seq<string>, key: string, k: nat, value: string)
    requires k < |lines| && lines[k] == key + value && forall i :: 0 <= i < k ==> !(key <= lines[i])
    ensures ValueOf(lines, key) == Some(value)
  {
    if k > 0 {
      FirstWith(lines[1..], key, k - 1, value);
    }
  }

  // Lines that begin otherwise than the key, up to character k.
  predicate Apart(line: string, key: string, k: nat) { k < |line| && k < |key| && line[k] != key[k] }

  lemma ApartIsNoPrefix(line: string, key: string, k: nat)
    requires Apart(line, key, k)
    ensures !(key <= line)
  {
  }

  lemma StartsApart(start: string, rest: string, key: string, k: nat)
    requires Apart(start, key, k)
    ensures !(key <= start + rest)
  {
    assert (start + rest)[k] == start[k];
  }

  const INTERFACE := "interface="
  const RANGE := "dhcp-range="
  const GATEWAY := "dhcp-option=option:router,"
  const RESOLVER := "dhcp-option=option:dns-server,"

  // The first lines of a text of which nothing but these is known.
  predicate Headed(lines: seq<string>, interface: string, range: string, address: string) {
    && |lines| >= 6 && lines[0] == INTERFACE + interface && lines[1] == "bind-dynamic"
    && lines[2] == "dhcp-authoritative" && lines[3] == RANGE + range
    && lines[4] == GATEWAY + address && lines[5] == RESOLVER + address
  }

  lemma RangeIsFirst(lines: seq<string>, interface: string, range: string, address: string)
    requires Headed(lines, interface, range, address)
    ensures ValueOf(lines, INTERFACE) == Some(interface) && ValueOf(lines, RANGE) == Some(range)
  {
    FirstWith(lines, INTERFACE, 0, interface);
    StartsApart(INTERFACE, interface, RANGE, 0);
    ApartIsNoPrefix("bind-dynamic", RANGE, 0);
    ApartIsNoPrefix("dhcp-authoritative", RANGE, 5);
    FirstWith(lines, RANGE, 3, range);
  }

  lemma OptionsAreFirst(lines: seq<string>, interface: string, range: string, address: string)
    requires Headed(lines, interface, range, address)
    ensures ValueOf(lines, GATEWAY) == Some(address) && ValueOf(lines, RESOLVER) == Some(address)
  {
    NotBefore(lines, interface, range, address, GATEWAY);
    FirstWith(lines, GATEWAY, 4, address);
    NotBefore(lines, interface, range, address, RESOLVER);
    assert GATEWAY[19] == 'r' && RESOLVER[19] == 'd';
    StartsApart(GATEWAY, address, RESOLVER, 19);
    FirstWith(lines, RESOLVER, 5, address);
  }

  lemma NotBefore(lines: seq<string>, interface: string, range: string, address: string, key: string)
    requires Headed(lines, interface, range, address) && |key| > 5 && key[0] == 'd' && key[5] == 'o'
    ensures forall i :: 0 <= i < 4 ==> !(key <= lines[i])
  {
    StartsApart(INTERFACE, interface, key, 0);
    ApartIsNoPrefix("bind-dynamic", key, 0);
    ApartIsNoPrefix("dhcp-authoritative", key, 5);
    StartsApart(RANGE, range, key, 5);
  }

  function RangeText(net: IpNet): string
    requires net.V4?
  {
    Dotted(Network(net)) + ",static," + Dotted(Netmask(net.len)) + ",12h"
  }

  lemma HeaderIsHeaded(c: Config, lines: seq<string>)
    requires c.network.guestSubnet.V4? && HeaderLines(c) <= lines
    ensures Headed(lines, c.router.guestInterface, RangeText(c.network.guestSubnet), Dotted(c.router.lanAddress))
  {
    var h := HeaderLines(c);
    assert forall i :: 0 <= i < 6 ==> lines[i] == h[i];
    AppendAll("dhcp-range=", Dotted(Network(c.network.guestSubnet)), Dotted(Netmask(c.network.guestSubnet.len)));
  }

  lemma AppendAll(key: string, first: string, mask: string)
    ensures key + first + ",static," + mask + ",12h" == key + (first + ",static," + mask + ",12h")
  {
  }

  // What the range says: the network, no dynamic leases, the netmask and the lease time.
  lemma RangeParts(net: IpNet)
    requires net.V4?
    ensures Split(RangeText(net), ',') == [Dotted(Network(net)), "static", Dotted(Netmask(net.len)), "12h"]
  {
    var (first, mask) := (Dotted(Network(net)), Dotted(Netmask(net.len)));
    DottedIsPlain(Network(net));
    DottedIsPlain(Netmask(net.len));
    FourParts(first, mask);
  }

  lemma FourParts(first: string, mask: string)
    requires ',' !in first && ',' !in mask
    ensures Split(first + ",static," + mask + ",12h", ',') == [first, "static", mask, "12h"]
  {
    JoinFour(first, "static", mask, "12h");
    SplitJoin([first, "static", mask, "12h"], ',');
    RangeIsJoined(first, mask);
  }

  lemma JoinFour(a: string, b: string, c: string, d: string)
    ensures Join([a, b, c, d], ',') == a + "," + (b + "," + (c + "," + d))
  {
    JoinTwo(c, d, ',');
    JoinMore(b, [c, d], ',');
    JoinMore(a, [b, c, d], ',');
  }

  lemma RangeIsJoined(first: string, mask: string)
    ensures first + "," + ("static" + "," + (mask + "," + "12h")) == first + ",static," + mask + ",12h"
  {
    assert ",static," == "," + "static" + "," && ",12h" == "," + "12h";
  }

  // A reader of the text learns the guest interface, the router as gateway and resolver, and a range that
  // is exactly the guest network: its mask tells members from others.
  lemma HeaderReads(c: Config)
    requires WellFormed(c)
    ensures var lines := Split(Unlines(HeaderLines(c) + LeaseLines(c.vms)), '\n');
            var (range, net) := (ValueOf(lines, "dhcp-range="), c.network.guestSubnet);
            var gateway := ValueOf(lines, "dhcp-option=option:router,");
            && ValueOf(lines, "interface=") == Some(c.router.guestInterface)
            && "bind-dynamic" in lines && "dhcp-authoritative" in lines
            && gateway.Some? && ParseDotted(gateway.value) == Some(c.router.lanAddress)
            && ValueOf(lines, "dhcp-option=option:dns-server,") == gateway
            && range.Some? && var parts := Split(range.value, ',');
               && |parts| == 4 && ParseDotted(parts[0]) == Some(Network(net)) && parts[1] == "static"
               && parts[3] == "12h" && IsMaskOf(net, ParseDotted(parts[2]))
  {
    var lines := Split(Unlines(HeaderLines(c) + LeaseLines(c.vms)), '\n');
    var (range, address) := (RangeText(c.network.guestSubnet), Dotted(c.router.lanAddress));
    TextStartsWithHeader(c);
    HeaderIsHeaded(c, lines);
    assert lines[1] in lines && lines[2] in lines;
    RangeIsFirst(lines, c.router.guestInterface, range, address);
    OptionsAreFirst(lines, c.router.guestInterface, range, address);
    RangeParts(c.network.guestSubnet);
    DottedRoundTrip(c.router.lanAddress);
    DottedRoundTrip(Network(c.network.guestSubnet));
    MaskReads(c.network.guestSubnet);
  }

  ghost predicate IsMaskOf(net: IpNet, mask: Option<Ipv4>)
    requires net.V4?
  {
    && mask.Some?
    && forall a: Ipv4 :: InSubnet(net, a) <==> a - a % (0x1_0000_0000 - mask.value) == Network(net)
  }

  lemma MaskReads(net: IpNet)
    requires net.V4?
    ensures IsMaskOf(net, ParseDotted(Dotted(Netmask(net.len))))
  {
    DottedRoundTrip(Netmask(net.len));
    forall a: Ipv4
      ensures InSubnet(net, a) <==> a - a % (0x1_0000_0000 - Netmask(net.len)) == Network(net)
    {
      NetmaskSelects(net, a);
    }
  }

  lemma TextStartsWithHeader(c: Config)
    requires WellFormed(c)
    ensures HeaderLines(c) <= Split(Unlines(HeaderLines(c) + LeaseLines(c.vms)), '\n')
  {
    HeaderStart(c);
    HeaderEnd(c);
    forall i | 0 <= i < |c.vms|
      ensures '\n' !in LeaseLines(c.vms)[i]
    {
      LeaseOf(c, i);
    }
    TextStarts(HeaderLines(c), LeaseLines(c.vms));
  }

  lemma TextStarts(header: seq<string>, lines: seq<string>)
    requires forall i :: 0 <= i < |header| ==> Other(header[i])
    requires forall i :: 0 <= i < |lines| ==> '\n' !in lines[i]
    ensures header <= Split(Unlines(header + lines), '\n')
  {
    SplitUnlines(header + lines);
  }

  /* ---- advertised routes ---- */

  predicate Increasing(s: seq<Ipv4>) { forall i, j :: 0 <= i < j < |s| ==> s[i] < s[j] }
  predicate Nondecreasing(s: seq<Ipv4>) { forall i, j :: 0 <= i < j < |s| ==> s[i] <= s[j] }

  function Insert(x: Ipv4, s: seq<Ipv4>): (r: seq<Ipv4>)
    ensures |r| == |s| + 1
    ensures forall y :: y in r <==> y == x || y in s
  {
    if s == [] then [x]
    else if x <= s[0] then [x] + s
    else
      assert forall y :: y in s <==> y == s[0] || y in s[1..];
      [s[0]] + Insert(x, s[1..])
  }

  lemma ConsOrder(x: Ipv4, s: seq<Ipv4>)
    requires Nondecreasing(s) && forall y :: y in s ==> x <= y
    ensures Nondecreasing([x] + s)
    ensures Increasing(s) && x !in s ==> Increasing([x] + s)
  {
    var r := [x] + s;
    forall i, j | 0 <= i < j < |r|
      ensures r[i] <= r[j]
      ensures Increasing(s) && x !in s ==> r[i] < r[j]
    {
      assert r[j] == s[j - 1] && r[j] in s;
      assert i > 0 ==> r[i] == s[i - 1];
    }
  }

  lemma HeadIsLeast(s: seq<Ipv4>)
    requires Nondecreasing(s) && s != []
    ensures forall y :: y in s ==> s[0] <= y
    ensures Increasing(s) ==> s[0] !in s[1..]
  {
  }

  lemma {:induction false} InsertKeepsOrder(x: Ipv4, s: seq<Ipv4>)
    requires Nondecreasing(s)
    ensures Nondecreasing(Insert(x, s))
    ensures Increasing(s) && x !in s ==> Increasing(Insert(x, s))
  {
    if s == [] {
    } else {
      HeadIsLeast(s);
      if x <= s[0] {
        ConsOrder(x, s);
      } else {
        InsertKeepsOrder(x, s[1..]);
        assert forall y :: y in s[1..] ==> y in s;
        ConsOrder(s[0], Insert(x, s[1..]));
      }
    }
  }

  // sort_unstable: the same elements in ascending order, strictly if none was repeated.
  function SortUnstable(s: seq<Ipv4>): (r: seq<Ipv4>)
    ensures Nondecreasing(r) && |r| == |s|
    ensures forall y :: y in r <==> y in s
    ensures Distinct(s) ==> Increasing(r)
  {
    if s == [] then [] else
      assert forall y :: y in s <==> y == s[0] || y in s[1..];
      InsertKeepsOrder(s[0], SortUnstable(s[1..]));
      Insert(s[0], SortUnstable(s[1..]))
  }

  // Vec::dedup: drops an element equal to its predecessor.
  function Dedup(s: seq<Ipv4>): (r: seq<Ipv4>)
    ensures forall x :: x in r <==> x in s
    ensures |s| > 0 ==> |r| > 0 && r[|r| - 1] == s[|s| - 1]
    ensures Nondecreasing(s) ==> Increasing(r)
    ensures Increasing(s) ==> r == s
  {
    if |s| <= 1 then s
    else
      var front := Dedup(s[..|s| - 1]);
      assert s == s[..|s| - 1] + [s[|s| - 1]];
      if s[|s| - 1] == s[|s| - 2] then front else front + [s[|s| - 1]]
  }

  function Addresses(vms: seq<Entry<Vm>>): (r: seq<Ipv4>)
    ensures |r| == |vms| && forall i :: 0 <= i < |vms| ==> r[i] == vms[i].value.address
  {
    seq(|vms|, i requires 0 <= i < |vms| => vms[i].value.address)
  }

  function RouteText(a: Ipv4): string { Dotted(a) + "/32" }

  function RouteTexts(s: seq<Ipv4>): (r: seq<string>)
    ensures |r| == |s| && forall i :: 0 <= i < |s| ==> r[i] == RouteText(s[i])
  {
    seq(|s|, i requires 0 <= i < |s| => RouteText(s[i]))
  }

  function ParseRoute(s: string): Option<Ipv4> {
    if |s| < 3 || s[|s| - 3..] != "/32" then None else ParseDotted(s[..|s| - 3])
  }

  function ParseAll(parts: seq<string>): Option<seq<Ipv4>> {
    if parts == [] then Some([])
    else match (ParseAll(parts[..|parts| - 1]), ParseRoute(parts[|parts| - 1]))
      case (Some(front), Some(last)) => Some(front + [last])
      case _ => None
  }

  // What a reader of the advertised routes gets: the networks of the comma-separated list.
  function RoutesIn(text: string): Option<seq<Ipv4>> {
    if text == "" then Some([]) else ParseAll(Split(text, ','))
  }

  // The text is a strictly ascending list of /32 routes: exactly the VM addresses, hence every
  // destination of a compiled flow; a valid configuration gives one route per VM.
  function RoutesText(c: Config): string { Join(RouteTexts(Dedup(SortUnstable(Addresses(c.vms)))), ',') }

  method AdvertisedRoutes(c: Config) returns (text: string)
    ensures text == RoutesText(c)
    ensures RoutesIn(text).Some? && Increasing(RoutesIn(text).value)
    ensures forall a :: a in RoutesIn(text).value <==> exists e :: e in c.vms && e.value.address == a
    ensures WellFormed(c) ==> |RoutesIn(text).value| == |c.vms|
    ensures forall f :: f in Elements(c.vms, c.controllers) ==> f.1 in RoutesIn(text).value
  {
    var guests := Addresses(c.vms);
    assert DistinctAddresses(c.vms) ==> Distinct(guests);
    guests := SortUnstable(guests);
    guests := Dedup(guests);
    text := Join(RouteTexts(guests), ',');
    RoutesParse(guests);
    RouteMembers(c, guests);
  }

  // Deactivating a controller changes neither the lease file nor the advertised routes.
  lemma DeactivationKeepsAddressing(c: Config, i: nat)
    requires i < |c.controllers| && c.network.guestSubnet.V4?
    ensures var d := Policy.Deactivate(c, i);
            && Unlines(HeaderLines(d) + LeaseLines(d.vms)) == Unlines(HeaderLines(c) + LeaseLines(c.vms))
            && RoutesText(d) == RoutesText(c)
  {
    var d := Policy.Deactivate(c, i);
    assert HeaderLines(d) == HeaderLines(c);
  }

  lemma {:induction false} AllParse(routes: seq<Ipv4>)
    ensures ParseAll(RouteTexts(routes)) == Some(routes)
  {
    if routes != [] {
      var front, last := routes[..|routes| - 1], routes[|routes| - 1];
      AllParse(front);
      assert RouteTexts(routes)[..|routes| - 1] == RouteTexts(front);
      RouteParses(last);
      assert front + [last] == routes;
    }
  }

  lemma RouteParses(a: Ipv4)
    ensures ParseRoute(RouteText(a)) == Some(a)
  {
    DottedRoundTrip(a);
    StripsSuffix(Dotted(a));
  }

  lemma StripsSuffix(s: string)
    ensures ParseRoute(s + "/32") == ParseDotted(s)
  {
    assert (s + "/32")[|s|..] == "/32" && (s + "/32")[..|s|] == s;
  }

  lemma RoutesParse(routes: seq<Ipv4>)
    ensures RoutesIn(Join(RouteTexts(routes), ',')) == Some(routes)
  {
    var texts := RouteTexts(routes);
    AllParse(routes);
    forall i | 0 <= i < |routes|
      ensures ',' !in texts[i]
    {
      DottedIsPlain(routes[i]);
    }
    if routes != [] {
      SplitJoin(texts, ',');
      JoinNotEmpty(texts);
    }
  }

  lemma JoinNotEmpty(parts: seq<string>)
    requires parts != [] && parts[0] != ""
    ensures Join(parts, ',') != ""
  {
  }

  lemma RouteMembers(c: Config, routes: seq<Ipv4>)
    requires forall a :: a in routes <==> a in Addresses(c.vms)
    ensures forall a :: a in routes <==> exists e :: e in c.vms && e.value.address == a
    ensures forall f :: f in Elements(c.vms, c.controllers) ==> f.1 in routes
  {
    var all := Addresses(c.vms);
    forall a
      ensures a in routes <==> exists e :: e in c.vms && e.value.address == a
    {
      if a in all {
        var i :| 0 <= i < |all| && all[i] == a;
        assert c.vms[i] in c.vms;
      }
      if e :| e in c.vms && e.value.address == a {
        var i :| 0 <= i < |c.vms| && c.vms[i] == e;
        assert all[i] == a;
      }
    }
    forall f | f in Elements(c.vms, c.controllers)
      ensures f.1 in routes
    {
      ElementsMembers(c.vms, c.controllers, f);
    }
  }
}
