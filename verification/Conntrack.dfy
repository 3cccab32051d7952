/** The router over time: forwarded packets, connection tracking and policy transactions in any order. */
module Conntrack {
  import opened Wrappers
  import opened Address
  import opened Config
  import opened Firewall

  datatype Tuple = Tuple(src: Ipv4, sport: nat, dst: Ipv4, dport: nat, tcp: bool)

  function Reversed(t: Tuple): Tuple { Tuple(t.dst, t.dport, t.src, t.sport, t.tcp) }

  // A tracked connection in its original direction, with the table it was opened under.
  datatype Conn = Conn(tuple: Tuple, iif: string, oif: string, openedUnder: Table)

  // `listed` is what the listing before the transaction said about the table, true or not; `accepted`
  // is whether the transaction was tried and the kernel was willing to take it.
  datatype Event =
    | Packet4(tuple: Tuple, iif: string, ct: CtState)
    | Apply(config: Config, listed: bool, accepted: bool)
    | Expire(conn: Conn)

  // The interface names and the routing function stay fixed over a run.
  datatype Wiring = Wiring(tailnet: string, guest: string, uplink: string, route: Ipv4 -> string)

  datatype Net = Net(kernel: Kernel, conns: set<Conn>)

  predicate Wired(w: Wiring, c: Config) {
    && c.network.guestSubnet.V4?
    && c.router.tailscaleInterface == w.tailnet && c.router.guestInterface == w.guest
    && c.router.uplinkInterface == w.uplink
  }

  function Seen(w: Wiring, e: Event): Packet
    requires e.Packet4?
  {
    var t := e.tuple;
    Packet(e.iif, w.route(t.dst), Some(IpHeader(t.src, t.dst, if t.tcp then Some(t.dport) else None)), e.ct)
  }

  predicate Belongs(conn: Conn, t: Tuple) { conn.tuple == t || conn.tuple == Reversed(t) }

  // The classes conntrack can give a packet. `Related` covers ICMP errors about a tracked connection;
  // there are no expectation helpers, so it never opens a connection.
  predicate Classified(s: Net, t: Tuple, ct: CtState) {
    match ct
    case New => forall c :: c in s.conns ==> c.tuple != Reversed(t)
    case Established => exists c :: c in s.conns && Belongs(c, t)
    case Related => !t.tcp && exists c :: c in s.conns && (t.dst == c.tuple.src || t.dst == c.tuple.dst)
    case Invalid => true
    case Untracked => true
  }

  predicate Legal(w: Wiring, s: Net, e: Event) {
    match e
    case Packet4(t, _, ct) => Classified(s, t, ct)
    case Apply(c, _, _) => Wired(w, c)
    case Expire(conn) => true
  }

  // Without this project's table nothing here stops a packet.
  predicate Passes(w: Wiring, s: Net, e: Event) {
    && e.Packet4?
    && (TABLE in s.kernel && "forward" in s.kernel[TABLE].chains ==> Forward(s.kernel[TABLE], Seen(w, e)) == Accepted)
  }

  // The emitted commands as one transaction on the kernel as it is.
  function Transact(k: Kernel, c: Config, listed: bool, accepted: bool): Kernel
    requires c.network.guestSubnet.V4?
  {
    var after := Execute(k, Listing(c, listed));
    if accepted && after.Some? then after.value else k
  }

  function Next(w: Wiring, s: Net, e: Event): Net
    requires Legal(w, s, e)
  {
    match e
    case Packet4(t, iif, ct) =>
      if Passes(w, s, e) && ct == New then
        s.(conns := s.conns + {Conn(t, iif, w.route(t.dst), Current(s.kernel))})
      else s
    case Apply(c, listed, accepted) => s.(kernel := Transact(s.kernel, c, listed, accepted))
    case Expire(conn) => s.(conns := s.conns - {conn})
  }

  // A run is a sequence of legal events.
  ghost predicate Run(w: Wiring, s: Net, es: seq<Event>, t: Net)
    decreases |es|
  {
    if es == [] then s == t
    else
      var before := es[..|es| - 1];
      exists m: Net :: Run(w, s, before, m) && StepTo(w, m, es[|es| - 1], t)
  }

  ghost predicate StepTo(w: Wiring, s: Net, e: Event, t: Net) { Legal(w, s, e) && t == Next(w, s, e) }

  /* ---- which configurations the installed table is made of ---- */

  ghost predicate AllWired(w: Wiring, cs: seq<Config>) { forall c :: c in cs ==> Wired(w, c) }

  // The kernel has no table, or the table of some layers of configurations.
  ghost predicate KernelIs(w: Wiring, k: Kernel, layers: seq<Config>) {
    && AllWired(w, layers)
    && (TABLE in k <==> layers != [])
    && (layers != [] ==> k[TABLE] == Layered(layers))
  }

  // A transaction takes unless it was refused, or deletes a table that is not there.
  predicate Takes(layers: seq<Config>, e: Event) { e.Apply? && e.accepted && (e.listed ==> layers != []) }

  function LayersAfter(layers: seq<Config>, e: Event): seq<Config> {
    if !Takes(layers, e) then layers else if e.listed then [e.config] else layers + [e.config]
  }

  function Layers(first: seq<Config>, es: seq<Event>): seq<Config> {
    if es == [] then first else LayersAfter(Layers(first, es[..|es| - 1]), es[|es| - 1])
  }

  lemma TransactLayers(w: Wiring, k: Kernel, layers: seq<Config>, e: Event)
    requires KernelIs(w, k, layers) && e.Apply? && Wired(w, e.config)
    ensures KernelIs(w, Transact(k, e.config, e.listed, e.accepted), LayersAfter(layers, e))
  {
    var c := e.config;
    ListingEffect(c, e.listed, k);
    if Takes(layers, e) {
      var after := LayersAfter(layers, e);
      assert after[..|after| - 1] == if e.listed then [] else layers;
      assert AllWired(w, after);
    }
  }

  lemma StepLayers(w: Wiring, s: Net, layers: seq<Config>, e: Event, t: Net)
    requires KernelIs(w, s.kernel, layers) && StepTo(w, s, e, t)
    ensures KernelIs(w, t.kernel, LayersAfter(layers, e))
  {
    if e.Apply? {
      TransactLayers(w, s.kernel, layers, e);
    }
  }

  // After any run, whatever the listings said, the installed table is that of the layers the taken
  // transactions left.
  lemma {:induction false} RunLayers(w: Wiring, s: Net, first: seq<Config>, es: seq<Event>, t: Net)
    requires KernelIs(w, s.kernel, first) && Run(w, s, es, t)
    ensures KernelIs(w, t.kernel, Layers(first, es))
    decreases |es|
  {
    if es != [] {
      var m: Net :| Run(w, s, es[..|es| - 1], m) && StepTo(w, m, es[|es| - 1], t);
      RunLayers(w, s, first, es[..|es| - 1], m);
      StepLayers(w, m, Layers(first, es[..|es| - 1]), es[|es| - 1], t);
    }
  }

  // The configuration of the last transaction taken.
  function LastTaken(first: seq<Config>, es: seq<Event>): Option<Config> {
    if es == [] then if first == [] then None else Some(first[|first| - 1])
    else
      var front, e := es[..|es| - 1], es[|es| - 1];
      if Takes(Layers(first, front), e) then Some(e.config) else LastTaken(first, front)
  }

  // The listing before the last transaction taken was right about the table.
  predicate LastListingTrue(first: seq<Config>, es: seq<Event>) {
    if es == [] then |first| <= 1
    else
      var front, e := es[..|es| - 1], es[|es| - 1];
      if Takes(Layers(first, front), e) then e.listed == (Layers(first, front) != []) else LastListingTrue(first, front)
  }

  lemma {:induction false} LastLayer(first: seq<Config>, es: seq<Event>)
    ensures var layers := Layers(first, es);
            && (layers == [] <==> LastTaken(first, es).None?)
            && (layers != [] ==> LastTaken(first, es) == Some(layers[|layers| - 1]))
            && (|layers| <= 1 <==> LastListingTrue(first, es))
  {
    if es != [] {
      LastLayer(first, es[..|es| - 1]);
    }
  }

  // The last transaction taken decides the table alone, whatever came before, if and only if its listing
  // was right: an unlisted table survives underneath.
  lemma LastApplyWinsIff(w: Wiring, s: Net, first: seq<Config>, es: seq<Event>, t: Net)
    requires KernelIs(w, s.kernel, first) && Run(w, s, es, t) && LastTaken(first, es).Some?
    ensures var last := LastTaken(first, es).value;
            && last.network.guestSubnet.V4? && TABLE in t.kernel
            && (t.kernel[TABLE] == TableFor(last) <==> LastListingTrue(first, es))
  {
    RunLayers(w, s, first, es, t);
    LastLayer(first, es);
    OneLayerIff(Layers(first, es));
  }

  /* ---- tracked connections ---- */

  ghost predicate OpenedFromTailnet(w: Wiring, c: Conn) {
    && c.iif == w.tailnet && c.oif == w.guest && c.tuple.tcp && c.tuple.dport == 5555
    && exists layers :: CompiledFrom(w, c.openedUnder, layers) && AnyAllows(layers, c.tuple.src, c.tuple.dst)
  }

  ghost predicate OpenedFromGuest(w: Wiring, c: Conn) {
    && c.iif == w.guest && c.oif == w.uplink
    && exists layers :: CompiledFrom(w, c.openedUnder, layers) && AnySubnet(layers, c.tuple.src)
  }

  ghost predicate CompiledFrom(w: Wiring, t: Table, layers: seq<Config>) {
    layers != [] && AllWired(w, layers) && t == Layered(layers)
  }

  predicate AnySubnet(layers: seq<Config>, a: Ipv4) { exists c :: c in layers && InSubnet(c.network.guestSubnet, a) }

  ghost predicate ConnsOk(w: Wiring, s: Net) {
    forall c :: c in s.conns ==> c.oif == w.route(c.tuple.dst) && (OpenedFromTailnet(w, c) || OpenedFromGuest(w, c))
  }

  // With one wiring, layers differ only in their pairs and their subnets.
  lemma WiredVerdict(w: Wiring, layers: seq<Config>, p: Packet)
    requires layers != [] && AllWired(w, layers) && p.ip.Some?
    ensures "forward" in Layered(layers).chains
    ensures Forward(Layered(layers), p) == Accepted <==>
            || (p.iif == w.tailnet && p.oif == w.guest && p.ip.value.tcpDport == Some(5555)
                && AnyAllows(layers, p.ip.value.src, p.ip.value.dst))
            || (p.iif == w.guest && p.oif == w.tailnet && AnySubnet(layers, p.ip.value.src)
                && p.ct in {Established, Related})
            || (p.iif == w.guest && p.oif == w.uplink && AnySubnet(layers, p.ip.value.src))
            || (p.iif == w.uplink && p.oif == w.guest && AnySubnet(layers, p.ip.value.dst)
                && p.ct in {Established, Related})
  {
    LayeredVerdict(layers, p);
    assert layers[0] in layers;
    if AdbShaped(layers[0], p) && AnyAllows(layers, p.ip.value.src, p.ip.value.dst) {
      assert LayerAccepts(layers, layers[0], p);
    }
    forall c | c in layers && OtherCases(c, p)
      ensures LayerAccepts(layers, c, p)
    {
    }
  }

  lemma StepKeepsConns(w: Wiring, s: Net, layers: seq<Config>, e: Event, t: Net)
    requires KernelIs(w, s.kernel, layers) && layers != [] && ConnsOk(w, s) && StepTo(w, s, e, t)
    ensures ConnsOk(w, t)
  {
    if e.Packet4? && Passes(w, s, e) && e.ct == New {
      WiredVerdict(w, layers, Seen(w, e));
      assert CompiledFrom(w, Current(s.kernel), layers);
    }
  }

  lemma {:induction false} LayersStay(first: seq<Config>, es: seq<Event>)
    requires first != []
    ensures Layers(first, es) != []
  {
    if es != [] {
      LayersStay(first, es[..|es| - 1]);
    }
  }

  // Over every run from an installed table, each tracked connection was opened from the tailnet to TCP
  // 5555 by a pair the table then in force allowed, or by a guest to the uplink.
  lemma {:induction false} TrackedConnections(w: Wiring, s: Net, first: seq<Config>, es: seq<Event>, t: Net)
    requires KernelIs(w, s.kernel, first) && first != [] && ConnsOk(w, s) && Run(w, s, es, t)
    ensures ConnsOk(w, t)
    decreases |es|
  {
    if es != [] {
      var front := es[..|es| - 1];
      var m: Net :| Run(w, s, front, m) && StepTo(w, m, es[|es| - 1], t);
      TrackedConnections(w, s, first, front, m);
      RunLayers(w, s, first, front, m);
      LayersStay(first, front);
      StepKeepsConns(w, m, Layers(first, front), es[|es| - 1], t);
    }
  }

  // What the policy lets in works: the first packet of an allowed pair passes and opens a connection, on
  // which the guest's answers pass back.
  lemma AllowedSessionWorks(w: Wiring, s: Net, layers: seq<Config>, e: Event)
    requires KernelIs(w, s.kernel, layers) && layers != [] && forall c :: c in layers ==> WellFormed(c)
    requires e.Packet4? && Legal(w, s, e) && e.ct == New && e.iif == w.tailnet && w.route(e.tuple.dst) == w.guest
    requires e.tuple.tcp && e.tuple.dport == 5555 && AnyAllows(layers, e.tuple.src, e.tuple.dst)
    ensures Passes(w, s, e)
    ensures var (t, s') := (e.tuple, Next(w, s, e));
            var answer := Packet4(Tuple(t.dst, t.dport, t.src, t.sport, true), w.guest, Established);
            && s'.kernel == s.kernel && s.conns <= s'.conns
            && Legal(w, s', answer) && (w.route(t.src) == w.tailnet ==> Passes(w, s', answer))
  {
    var (t, s') := (e.tuple, Next(w, s, e));
    var answer := Packet4(Tuple(t.dst, t.dport, t.src, t.sport, true), w.guest, Established);
    WiredVerdict(w, layers, Seen(w, e));
    assert Conn(t, e.iif, w.guest, Current(s.kernel)) in s'.conns;
    assert Belongs(Conn(t, e.iif, w.guest, Current(s.kernel)), answer.tuple);
    AllowedGuestIsLocal(layers, t.src, t.dst);
    WiredVerdict(w, layers, Seen(w, answer));
  }

  lemma AllowedGuestIsLocal(layers: seq<Config>, src: Ipv4, dst: Ipv4)
    requires AnyAllows(layers, src, dst) && forall c :: c in layers ==> WellFormed(c)
    ensures AnySubnet(layers, dst)
  {
    var c :| c in layers && PairAllowed(c, src, dst);
    var v, k :| v in c.vms && k in c.controllers && Grants(v.value, k.value, src, dst);
    assert VmOk(c.network.guestSubnet, Keys(c.controllers), v);
  }

  /* ---- revocation ---- */

  predicate TailnetSeparate(w: Wiring) { w.tailnet != w.uplink && w.tailnet != w.guest }

  // A tailnet-to-guest packet passes only for a pair the installed table allows, even on a connection
  // that is already established.
  lemma CrossingNeedsPermission(w: Wiring, s: Net, layers: seq<Config>, e: Event)
    requires KernelIs(w, s.kernel, layers) && layers != [] && TailnetSeparate(w)
    requires e.Packet4? && e.iif == w.tailnet && w.route(e.tuple.dst) == w.guest
    ensures Passes(w, s, e) <==>
            e.tuple.tcp && e.tuple.dport == 5555 && AnyAllows(layers, e.tuple.src, e.tuple.dst)
  {
    WiredVerdict(w, layers, Seen(w, e));
  }

  // What a revocation needs of the listing: after a policy without a pair was taken, the pair still
  // crosses if and only if the table was there but not listed and allowed the pair.
  lemma RevocationNeedsListing(w: Wiring, s: Net, layers: seq<Config>, a: Event, e: Event)
    requires KernelIs(w, s.kernel, layers) && layers != [] && TailnetSeparate(w)
    requires e.Packet4? && e.iif == w.tailnet && w.route(e.tuple.dst) == w.guest
    requires Legal(w, s, a) && a.Apply? && a.accepted && !PairAllowed(a.config, e.tuple.src, e.tuple.dst)
    requires e.tuple.tcp && e.tuple.dport == 5555
    ensures Passes(w, Next(w, s, a), e) <==> !a.listed && AnyAllows(layers, e.tuple.src, e.tuple.dst)
  {
    var after := LayersAfter(layers, a);
    TransactLayers(w, s.kernel, layers, a);
    CrossingNeedsPermission(w, Next(w, s, a), after, e);
    AllowsAfter(layers, a, e.tuple.src, e.tuple.dst);
  }

  lemma AllowsAfter(layers: seq<Config>, a: Event, src: Ipv4, dst: Ipv4)
    requires a.Apply? && Takes(layers, a)
    ensures AnyAllows(LayersAfter(layers, a), src, dst) <==>
            PairAllowed(a.config, src, dst) || (!a.listed && AnyAllows(layers, src, dst))
  {
    assert a.config in LayersAfter(layers, a);
    if !a.listed {
      assert forall c :: c in layers + [a.config] <==> c in layers || c == a.config;
    }
  }

  // Once no installed layer has a pair, no packet of that pair crosses from tailnet to guest until a
  // policy with the pair is taken, right or wrong listings notwithstanding.
  lemma RevokedPairStaysOut(w: Wiring, s: Net, layers: seq<Config>, es: seq<Event>, t: Net, e: Event)
    requires KernelIs(w, s.kernel, layers) && layers != [] && TailnetSeparate(w) && Run(w, s, es, t)
    requires e.Packet4? && e.iif == w.tailnet && w.route(e.tuple.dst) == w.guest
    requires !AnyAllows(layers, e.tuple.src, e.tuple.dst)
    requires forall a :: a in es && a.Apply? && a.accepted ==> !PairAllowed(a.config, e.tuple.src, e.tuple.dst)
    ensures !AnyAllows(Layers(layers, es), e.tuple.src, e.tuple.dst) && !Passes(w, t, e)
  {
    NeverAllowed(layers, es, e.tuple.src, e.tuple.dst);
    RunLayers(w, s, layers, es, t);
    LayersStay(layers, es);
    CrossingNeedsPermission(w, t, Layers(layers, es), e);
  }

  lemma {:induction false} NeverAllowed(layers: seq<Config>, es: seq<Event>, src: Ipv4, dst: Ipv4)
    requires !AnyAllows(layers, src, dst)
    requires forall a :: a in es && a.Apply? && a.accepted ==> !PairAllowed(a.config, src, dst)
    ensures !AnyAllows(Layers(layers, es), src, dst)
  {
    if es != [] {
      var front, a := es[..|es| - 1], es[|es| - 1];
      assert a in es && forall x :: x in front ==> x in es;
      NeverAllowed(layers, front, src, dst);
      if Takes(Layers(layers, front), a) {
        AllowsAfter(Layers(layers, front), a, src, dst);
      }
    }
  }

  // The other direction is not cut: a guest packet reaches the tailnet iff conntrack knows it. If no
  // guest that opened a connection to the uplink is routed into the tailnet, an established one answers a
  // connection that was opened from the tailnet, and a related one goes to the source of such a connection.
  lemma GuestReplies(w: Wiring, s: Net, layers: seq<Config>, e: Event)
    requires KernelIs(w, s.kernel, layers) && layers != [] && TailnetSeparate(w) && ConnsOk(w, s) && Legal(w, s, e)
    requires e.Packet4? && e.iif == w.guest && w.route(e.tuple.dst) == w.tailnet
    ensures Passes(w, s, e) <==> AnySubnet(layers, e.tuple.src) && e.ct in {Established, Related}
    ensures Passes(w, s, e) && e.ct == Established && GuestsStayOut(w, s) ==>
              exists c :: c in s.conns && OpenedFromTailnet(w, c) && c.tuple == Reversed(e.tuple)
    ensures Passes(w, s, e) && e.ct == Related && GuestsStayOut(w, s) ==>
              exists c :: c in s.conns && OpenedFromTailnet(w, c) && c.tuple.src == e.tuple.dst
  {
    WiredVerdict(w, layers, Seen(w, e));
    if e.ct == Established && GuestsStayOut(w, s) {
      Answered(w, s, e);
    }
    if e.ct == Related && GuestsStayOut(w, s) {
      Concerned(w, s, e);
    }
  }

  lemma Concerned(w: Wiring, s: Net, e: Event)
    requires TailnetSeparate(w) && ConnsOk(w, s) && GuestsStayOut(w, s)
    requires e.Packet4? && w.route(e.tuple.dst) == w.tailnet && Classified(s, e.tuple, Related)
    ensures exists c :: c in s.conns && OpenedFromTailnet(w, c) && c.tuple.src == e.tuple.dst
  {
    var c :| c in s.conns && (e.tuple.dst == c.tuple.src || e.tuple.dst == c.tuple.dst);
    assert c.tuple.dst != e.tuple.dst;
    assert !OpenedFromGuest(w, c);
  }

  ghost predicate GuestsStayOut(w: Wiring, s: Net) {
    forall c :: c in s.conns && OpenedFromGuest(w, c) ==> w.route(c.tuple.src) != w.tailnet
  }

  lemma Answered(w: Wiring, s: Net, e: Event)
    requires TailnetSeparate(w) && ConnsOk(w, s) && GuestsStayOut(w, s)
    requires e.Packet4? && w.route(e.tuple.dst) == w.tailnet && Classified(s, e.tuple, Established)
    ensures exists c :: c in s.conns && OpenedFromTailnet(w, c) && c.tuple == Reversed(e.tuple)
  {
    var c :| c in s.conns && Belongs(c, e.tuple);
    assert c.tuple != e.tuple;
    assert !OpenedFromGuest(w, c);
  }

  // So replies of a revoked pair still leave the guest while its connection is tracked, even after a
  // replacement that was listed correctly.
  lemma RepliesOutliveRevocation(w: Wiring, s: Net, layers: seq<Config>, conn: Conn, c: Config)
    requires KernelIs(w, s.kernel, layers) && layers != []
    requires conn in s.conns && OpenedFromTailnet(w, conn) && Wired(w, c)
    requires w.route(conn.tuple.src) == w.tailnet && InSubnet(c.network.guestSubnet, conn.tuple.dst)
    ensures var revoked := Next(w, s, Event.Apply(c, true, true));
            var reply := Packet4(Reversed(conn.tuple), w.guest, Established);
            Legal(w, revoked, reply) && Passes(w, revoked, reply)
  {
    var a := Event.Apply(c, true, true);
    var revoked := Next(w, s, a);
    var reply := Packet4(Reversed(conn.tuple), w.guest, Established);
    assert Belongs(conn, reply.tuple);
    assert conn in revoked.conns;
    TransactLayers(w, s.kernel, layers, a);
    assert c in [c] && AnySubnet([c], conn.tuple.dst);
    WiredVerdict(w, [c], Seen(w, reply));
  }

  // They stop when the connection is no longer tracked and no other one belongs to the same endpoints.
  lemma ExpiryEndsAnswers(w: Wiring, s: Net, conn: Conn, e: Event)
    requires e.Packet4? && e.ct == Established
    ensures var after := Next(w, s, Expire(conn));
            && after.kernel == s.kernel
            && (Legal(w, after, e) <==> exists c :: c in s.conns && c != conn && Belongs(c, e.tuple))
  {
    var after := Next(w, s, Expire(conn));
    if c :| c in s.conns && c != conn && Belongs(c, e.tuple) {
      assert c in after.conns;
    }
  }
}
