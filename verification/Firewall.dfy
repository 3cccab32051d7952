/** The access-policy compiler: a configuration becomes an nftables table, whose forward chain is then
    evaluated packet by packet. */
module Firewall {
  import opened Wrappers
  import opened Address
  import opened Config

  const TABLE := "tailnet_android_router"
  const ALLOWED_SET := "allowed_adb_flows"
  const ADB_PORT := 5555

  /* ---- the fragment of the nftables language that is emitted ---- */

  datatype Field = IpSaddr | IpDaddr | TcpDport
  datatype Right = Number(n: nat) | Prefix(addr: Ipv4, len: PrefixLen)
  datatype MetaKey = Iifname | Oifname
  datatype CtState = New | Established | Related | Invalid | Untracked
  datatype Verdict = Accepted | Dropped

  datatype Expr =
    | Meta(key: MetaKey, name: string)
    | Payload(field: Field, right: Right)
    | InSet(left: seq<Field>, setName: string)
    | CtIn(states: set<CtState>)
    | Accept
    | Masquerade

  type Flow = (Ipv4, Ipv4)

  datatype Command =
    | DeleteTable
    | AddTable
    | AddSet(name: string, elements: seq<Flow>)
    | AddChain(chain: string, policy: Verdict)
    | AddRule(chain: string, expr: seq<Expr>)

  datatype Chain = Chain(policy: Verdict, rules: seq<seq<Expr>>)
  datatype Table = Table(sets: map<string, set<Flow>>, chains: map<string, Chain>)
  type Kernel = map<string, Table>

  // One command on this project's table; `None` aborts the whole transaction.
  function ExecuteOne(k: Kernel, command: Command): Option<Kernel> {
    match command
    case DeleteTable => if TABLE in k then Some(k - {TABLE}) else None
    case AddTable => if TABLE in k then Some(k) else Some(k[TABLE := Table(map[], map[])])
    case _ =>
      if TABLE !in k then None
      else match Extend(k[TABLE], command)
        case None => None
        case Some(t) => Some(k[TABLE := t])
  }

  function FlowSet(elements: seq<Flow>): set<Flow> { set f | f in elements }

  function Extend(t: Table, command: Command): Option<Table> {
    match command
    case AddSet(name, elements) =>
      Some(t.(sets := t.sets[name := if name in t.sets then t.sets[name] + FlowSet(elements) else FlowSet(elements)]))
    case AddChain(chain, policy) =>
      if chain in t.chains then Some(t) else Some(t.(chains := t.chains[chain := Chain(policy, [])]))
    case AddRule(chain, expr) =>
      if chain !in t.chains then None
      else Some(t.(chains := t.chains[chain := t.chains[chain].(rules := t.chains[chain].rules + [expr])]))
    case _ => Some(t)
  }

  function Execute(k: Kernel, commands: seq<Command>): Option<Kernel> {
    if commands == [] then Some(k)
    else match Execute(k, commands[..|commands| - 1])
      case None => None
      case Some(before) => ExecuteOne(before, commands[|commands| - 1])
  }

  /* ---- the compiler ---- */

  function SourceFlows(sources: seq<Ipv4>, guest: Ipv4): (r: seq<Flow>)
    ensures |r| == |sources| && forall i :: 0 <= i < |r| ==> r[i] == (sources[i], guest)
  {
    seq(|sources|, i requires 0 <= i < |sources| => (sources[i], guest))
  }

  function VmFlows(controllers: seq<Controller>, guest: Ipv4): seq<Flow> {
    if controllers == [] then []
    else SourceFlows(controllers[0].sources, guest) + VmFlows(controllers[1..], guest)
  }

  function Elements(vms: seq<Entry<Vm>>, controllers: seq<Entry<Controller>>): seq<Flow> {
    if vms == [] then []
    else VmFlows(ControllersForVm(controllers, vms[0].value), vms[0].value.address) + Elements(vms[1..], controllers)
  }

  function MetaMatch(key: MetaKey, name: string): Expr { Meta(key, name) }
  function PayloadMatch(field: Field, right: Right): Expr { Payload(field, right) }
  function ConntrackEstablished(): Expr { CtIn({Established, Related}) }
  function SubnetPrefix(net: IpNet): Right requires net.V4? { Prefix(net.addr, net.len) }

  function Rules(c: Config): seq<seq<Expr>>
    requires c.network.guestSubnet.V4?
  {
    var guests := SubnetPrefix(c.network.guestSubnet);
    [ [ MetaMatch(Iifname, c.router.tailscaleInterface), MetaMatch(Oifname, c.router.guestInterface),
        InSet([IpSaddr, IpDaddr], ALLOWED_SET), PayloadMatch(TcpDport, Number(ADB_PORT)), Accept ],
      [ MetaMatch(Iifname, c.router.guestInterface), MetaMatch(Oifname, c.router.tailscaleInterface),
        PayloadMatch(IpSaddr, guests), ConntrackEstablished(), Accept ],
      [ MetaMatch(Iifname, c.router.guestInterface), MetaMatch(Oifname, c.router.uplinkInterface),
        PayloadMatch(IpSaddr, guests), Accept ],
      [ MetaMatch(Iifname, c.router.uplinkInterface), MetaMatch(Oifname, c.router.guestInterface),
        PayloadMatch(IpDaddr, guests), ConntrackEstablished(), Accept ] ]
  }

  function NatRule(c: Config): seq<Expr>
    requires c.network.guestSubnet.V4?
  {
    [ MetaMatch(Oifname, c.router.uplinkInterface), PayloadMatch(IpSaddr, SubnetPrefix(c.network.guestSubnet)),
      Masquerade ]
  }

  // The table a configuration stands for.
  function TableFor(c: Config): Table
    requires c.network.guestSubnet.V4?
  {
    Table(map[ALLOWED_SET := FlowSet(Elements(c.vms, c.controllers))],
          map["forward" := Chain(Dropped, Rules(c)), "postrouting" := Chain(Accepted, [NatRule(c)])])
  }

  function Header(elements: seq<Flow>): seq<Command> {
    [AddTable, AddSet(ALLOWED_SET, elements), AddChain("forward", Dropped), AddChain("postrouting", Accepted)]
  }

  function ForwardRules(rules: seq<seq<Expr>>): seq<Command> {
    seq(|rules|, i requires 0 <= i < |rules| => AddRule("forward", rules[i]))
  }

  function Listing(c: Config, replace: bool): seq<Command>
    requires c.network.guestSubnet.V4?
  {
    (if replace then [DeleteTable] else [])
    + (Header(Elements(c.vms, c.controllers)) + (ForwardRules(Rules(c)) + [AddRule("postrouting", NatRule(c))]))
  }

  method Ruleset(c: Config, replace: bool) returns (commands: seq<Command>)
    requires c.network.guestSubnet.V4?
    ensures commands == Listing(c, replace)
  {
    commands := [];
    if replace {
      commands := commands + [DeleteTable];
    }
    commands := commands + [AddTable];
    var elements := Elements(c.vms, c.controllers);
    commands := commands + [AddSet(ALLOWED_SET, elements)];
    commands := commands + [AddChain("forward", Dropped)];
    commands := commands + [AddChain("postrouting", Accepted)];
    commands := commands + [AddRule("forward", Rules(c)[0])];
    commands := commands + [AddRule("forward", Rules(c)[1])];
    commands := commands + [AddRule("forward", Rules(c)[2])];
    commands := commands + [AddRule("forward", Rules(c)[3])];
    commands := commands + [AddRule("postrouting", NatRule(c))];
  }

  /* ---- what the commands do to a kernel ---- */

  const EMPTY := Table(map[], map[])

  // The table the `add table` command leaves to work on.
  function Current(k: Kernel): Table { if TABLE in k then k[TABLE] else EMPTY }

  function WithFlows(sets: map<string, set<Flow>>, elements: seq<Flow>): map<string, set<Flow>> {
    sets[ALLOWED_SET := if ALLOWED_SET in sets then sets[ALLOWED_SET] + FlowSet(elements) else FlowSet(elements)]
  }

  function WithChain(chains: map<string, Chain>, name: string, policy: Verdict): (r: map<string, Chain>)
    ensures r.Keys == chains.Keys + {name}
  {
    if name in chains then chains else chains[name := Chain(policy, [])]
  }

  function WithRules(chains: map<string, Chain>, name: string, rules: seq<seq<Expr>>): (r: map<string, Chain>)
    requires name in chains
    ensures r.Keys == chains.Keys
  {
    chains[name := chains[name].(rules := chains[name].rules + rules)]
  }

  function WithHeader(t: Table, elements: seq<Flow>): Table {
    Table(WithFlows(t.sets, elements), WithChain(WithChain(t.chains, "forward", Dropped), "postrouting", Accepted))
  }

  // A table after the commands of a configuration were added to it: flows and rules pile up.
  function Grown(t: Table, c: Config): Table
    requires c.network.guestSubnet.V4?
  {
    var h := WithHeader(t, Elements(c.vms, c.controllers));
    h.(chains := WithRules(WithRules(h.chains, "forward", Rules(c)), "postrouting", [NatRule(c)]))
  }

  // Executing the emitted commands in one transaction, on any kernel and whether or not a table was
  // listed. A delete without a table aborts; a delete starts afresh; otherwise the commands are added to
  // what is there. No other table is touched.
  lemma ListingEffect(c: Config, listed: bool, kernel: Kernel)
    requires c.network.guestSubnet.V4?
    ensures Execute(kernel, Listing(c, listed)) ==
            if listed && TABLE !in kernel then None
            else Some(kernel[TABLE := Grown(if listed then EMPTY else Current(kernel), c)])
  {
    var rest := Header(Elements(c.vms, c.controllers))
                + (ForwardRules(Rules(c)) + [AddRule("postrouting", NatRule(c))]);
    if listed {
      ExecuteAppend(kernel, [DeleteTable], rest);
      Deleted(kernel);
      if TABLE in kernel {
        RestGrows(c, kernel - {TABLE});
        assert (kernel - {TABLE})[TABLE := Grown(EMPTY, c)] == kernel[TABLE := Grown(EMPTY, c)];
      }
    } else {
      assert Listing(c, false) == rest;
      RestGrows(c, kernel);
    }
  }

  lemma Deleted(kernel: Kernel)
    ensures Execute(kernel, [DeleteTable]) == if TABLE in kernel then Some(kernel - {TABLE}) else None
  {
    assert [DeleteTable][..0] == [];
  }

  lemma RestGrows(c: Config, kernel: Kernel)
    requires c.network.guestSubnet.V4?
    ensures Execute(kernel, Header(Elements(c.vms, c.controllers))
                            + (ForwardRules(Rules(c)) + [AddRule("postrouting", NatRule(c))]))
            == Some(kernel[TABLE := Grown(Current(kernel), c)])
  {
    var elements := Elements(c.vms, c.controllers);
    var rest := ForwardRules(Rules(c)) + [AddRule("postrouting", NatRule(c))];
    HeaderInstalls(kernel, elements);
    ExecuteAppend(kernel, Header(elements), rest);
    RulesAndNat(kernel, WithHeader(Current(kernel), elements), Rules(c), NatRule(c));
  }

  lemma RulesAndNat(others: Kernel, t: Table, rules: seq<seq<Expr>>, masquerade: seq<Expr>)
    requires "forward" in t.chains && "postrouting" in t.chains
    ensures Execute(others[TABLE := t], ForwardRules(rules) + [AddRule("postrouting", masquerade)])
            == Some(others[TABLE := t.(chains := WithRules(WithRules(t.chains, "forward", rules),
                                                           "postrouting", [masquerade]))])
  {
    RulesInstall(others, t, rules);
    OneMore(others[TABLE := t], others, ForwardRules(rules), t.(chains := WithRules(t.chains, "forward", rules)),
            AddRule("postrouting", masquerade));
  }

  // One more command, given the table the commands before it produce.
  lemma OneMore(k: Kernel, others: Kernel, commands: seq<Command>, t: Table, next: Command)
    requires Execute(k, commands) == Some(others[TABLE := t])
    requires !next.DeleteTable? && !next.AddTable? && Extend(t, next).Some?
    ensures Execute(k, commands + [next]) == Some(others[TABLE := Extend(t, next).value])
  {
    assert (commands + [next])[..|commands + [next]| - 1] == commands;
    assert others[TABLE := t][TABLE := Extend(t, next).value] == others[TABLE := Extend(t, next).value];
  }

  lemma HeaderInstalls(k: Kernel, elements: seq<Flow>)
    ensures Execute(k, Header(elements)) == Some(k[TABLE := WithHeader(Current(k), elements)])
  {
    var h, t := Header(elements), Current(k);
    var sets := WithFlows(t.sets, elements);
    assert h[..1][..0] == [];
    assert TABLE in k ==> k[TABLE := t] == k;
    assert Execute(k, h[..1]) == Some(k[TABLE := t]);
    assert h[..2] == h[..1] + [h[1]] && h[..3] == h[..2] + [h[2]] && h == h[..3] + [h[3]];
    OneMore(k, k, h[..1], t, h[1]);
    assert Extend(t, h[1]).value.sets == sets;
    OneMore(k, k, h[..2], Table(sets, t.chains), h[2]);
    OneMore(k, k, h[..3], Table(sets, WithChain(t.chains, "forward", Dropped)), h[3]);
  }

  lemma {:induction false} RulesInstall(others: Kernel, t: Table, rules: seq<seq<Expr>>)
    requires "forward" in t.chains
    ensures Execute(others[TABLE := t], ForwardRules(rules))
            == Some(others[TABLE := t.(chains := WithRules(t.chains, "forward", rules))])
  {
    if rules == [] {
      assert t.chains["forward"].rules + [] == t.chains["forward"].rules;
      assert WithRules(t.chains, "forward", []) == t.chains;
    } else {
      var front, last := rules[..|rules| - 1], rules[|rules| - 1];
      RulesInstall(others, t, front);
      assert ForwardRules(rules) == ForwardRules(front) + [AddRule("forward", last)];
      var before := t.(chains := WithRules(t.chains, "forward", front));
      OneMore(others[TABLE := t], others, ForwardRules(front), before, AddRule("forward", last));
      OneRuleMore(t.chains, front, last);
      assert front + [last] == rules;
    }
  }

  lemma OneRuleMore(chains: map<string, Chain>, front: seq<seq<Expr>>, last: seq<Expr>)
    requires "forward" in chains
    ensures WithRules(WithRules(chains, "forward", front), "forward", [last]) == WithRules(chains, "forward", front + [last])
  {
    var rules := chains["forward"].rules;
    assert (rules + front) + [last] == rules + (front + [last]);
  }

  lemma FreshIsTableFor(c: Config)
    requires c.network.guestSubnet.V4?
    ensures Grown(EMPTY, c) == TableFor(c)
  {
    var g, t := Grown(EMPTY, c), TableFor(c);
    assert g.sets == t.sets;
    assert g.chains["forward"] == t.chains["forward"] && g.chains["postrouting"] == t.chains["postrouting"];
    assert g.chains == t.chains;
  }

  // A kernel that never had this project's table, or has one with the rules of some configuration.
  predicate Ours(k: Kernel) {
    TABLE in k ==> "forward" in k[TABLE].chains && k[TABLE].chains["forward"].rules != []
  }

  // The commands install exactly the table of their configuration if and only if the listing told the
  // truth about the kernel the transaction meets.
  lemma ListingInstallsIff(c: Config, listed: bool, kernel: Kernel)
    requires c.network.guestSubnet.V4? && Ours(kernel)
    ensures Execute(kernel, Listing(c, listed)) == Some(kernel[TABLE := TableFor(c)]) <==> listed == (TABLE in kernel)
  {
    ListingEffect(c, listed, kernel);
    FreshIsTableFor(c);
    if !listed && TABLE in kernel {
      var g := Grown(kernel[TABLE], c);
      assert |g.chains["forward"].rules| == |kernel[TABLE].chains["forward"].rules| + 4;
      assert kernel[TABLE := g][TABLE] != kernel[TABLE := TableFor(c)][TABLE];
    }
  }

  lemma {:induction false} ExecuteAppend(k: Kernel, a: seq<Command>, b: seq<Command>)
    ensures Execute(k, a + b) == match Execute(k, a)
                                 case None => None
                                 case Some(mid) => Execute(mid, b)
  {
    if b == [] {
      assert a + b == a;
    } else {
      ExecuteAppend(k, a, b[..|b| - 1]);
      assert (a + b)[..|a + b| - 1] == a + b[..|b| - 1];
    }
  }

  /* ---- evaluating the table ---- */

  datatype IpHeader = IpHeader(src: Ipv4, dst: Ipv4, tcpDport: Option<nat>)

  // `ip` is None for every packet that is not IPv4.
  datatype Packet = Packet(iif: string, oif: string, ip: Option<IpHeader>, ct: CtState)

  // A payload expression carries an implicit protocol match, so a missing header does not match.
  function FieldOf(p: Packet, field: Field): Option<nat> {
    if p.ip.None? then None
    else match field
      case IpSaddr => Some(p.ip.value.src)
      case IpDaddr => Some(p.ip.value.dst)
      case TcpDport => p.ip.value.tcpDport
  }

  predicate RightMatches(v: nat, right: Right) {
    match right
    case Number(n) => v == n
    case Prefix(addr, len) => v < 0x1_0000_0000 && Masked(v, len) == Masked(addr, len)
  }

  predicate Matches(t: Table, e: Expr, p: Packet) {
    match e
    case Meta(Iifname, name) => p.iif == name
    case Meta(Oifname, name) => p.oif == name
    case Payload(field, right) => FieldOf(p, field).Some? && RightMatches(FieldOf(p, field).value, right)
    case InSet(left, name) =>
      && left == [IpSaddr, IpDaddr] && p.ip.Some? && name in t.sets
      && (p.ip.value.src, p.ip.value.dst) in t.sets[name]
    case CtIn(states) => p.ct in states
    case Accept => true
    case Masquerade => true
  }

  // A rule stops at its first failing match; reaching a verdict statement ends the chain.
  function EvalRule(t: Table, rule: seq<Expr>, p: Packet): Option<Verdict> {
    if rule == [] then None
    else if rule[0].Accept? then Some(Accepted)
    else if Matches(t, rule[0], p) then EvalRule(t, rule[1..], p)
    else None
  }

  function EvalRules(t: Table, rules: seq<seq<Expr>>, policy: Verdict, p: Packet): Verdict {
    if rules == [] then policy
    else match EvalRule(t, rules[0], p)
      case Some(v) => v
      case None => EvalRules(t, rules[1..], policy, p)
  }

  function Forward(t: Table, p: Packet): Verdict
    requires "forward" in t.chains
  {
    EvalRules(t, t.chains["forward"].rules, t.chains["forward"].policy, p)
  }

  /* ---- what the policy means ---- */

  // Some VM has this destination and some active controller permitted for it owns this source.
  ghost predicate PairAllowed(c: Config, src: Ipv4, dst: Ipv4) {
    exists v, k :: v in c.vms && k in c.controllers && Grants(v.value, k.value, src, dst)
  }

  predicate Grants(vm: Vm, controller: Controller, src: Ipv4, dst: Ipv4) {
    && controller.active && (vm.controllers == [] || controller.name in vm.controllers)
    && src in controller.sources && vm.address == dst
  }

  ghost predicate TailnetToGuest(c: Config, p: Packet) {
    && p.iif == c.router.tailscaleInterface && p.oif == c.router.guestInterface
    && p.ip.Some? && p.ip.value.tcpDport == Some(5555)
    && PairAllowed(c, p.ip.value.src, p.ip.value.dst)
  }

  predicate GuestToTailnetReply(c: Config, p: Packet) {
    && p.iif == c.router.guestInterface && p.oif == c.router.tailscaleInterface
    && p.ip.Some? && InSubnet(c.network.guestSubnet, p.ip.value.src)
    && p.ct in {Established, Related}
  }

  predicate GuestToUplink(c: Config, p: Packet) {
    && p.iif == c.router.guestInterface && p.oif == c.router.uplinkInterface
    && p.ip.Some? && InSubnet(c.network.guestSubnet, p.ip.value.src)
  }

  predicate UplinkReply(c: Config, p: Packet) {
    && p.iif == c.router.uplinkInterface && p.oif == c.router.guestInterface
    && p.ip.Some? && InSubnet(c.network.guestSubnet, p.ip.value.dst)
    && p.ct in {Established, Related}
  }

  lemma {:induction false} VmFlowsMembers(controllers: seq<Controller>, guest: Ipv4, f: Flow)
    ensures f in VmFlows(controllers, guest) <==> f.1 == guest && exists k :: k in controllers && f.0 in k.sources
  {
    if controllers != [] {
      VmFlowsMembers(controllers[1..], guest, f);
      var head := SourceFlows(controllers[0].sources, guest);
      if f.1 == guest && f.0 in controllers[0].sources {
        var i :| 0 <= i < |controllers[0].sources| && controllers[0].sources[i] == f.0;
        assert head[i] == f;
      }
      assert forall k :: k in controllers <==> k == controllers[0] || k in controllers[1..];
    }
  }

  lemma VmElements(vm: Vm, controllers: seq<Entry<Controller>>, f: Flow)
    ensures f in VmFlows(ControllersForVm(controllers, vm), vm.address) <==>
            exists k :: k in controllers && Grants(vm, k.value, f.0, f.1)
  {
    var permitted := ControllersForVm(controllers, vm);
    VmFlowsMembers(permitted, vm.address, f);
    if f in VmFlows(permitted, vm.address) {
      var owner :| owner in permitted && f.0 in owner.sources;
      var k :| k in controllers && k.value == owner;
      assert Grants(vm, k.value, f.0, f.1);
    }
    if k :| k in controllers && Grants(vm, k.value, f.0, f.1) {
      assert k.value in permitted;
    }
  }

  // A pair is in the set iff some VM has the destination, and some active controller, which the VM's list
  // names or is empty, owns the source.
  lemma {:induction false} ElementsMembers(vms: seq<Entry<Vm>>, controllers: seq<Entry<Controller>>, f: Flow)
    ensures f in Elements(vms, controllers) <==>
            exists v, k :: v in vms && k in controllers && Grants(v.value, k.value, f.0, f.1)
  {
    if vms != [] {
      ElementsMembers(vms[1..], controllers, f);
      VmElements(vms[0].value, controllers, f);
      assert forall v :: v in vms <==> v == vms[0] || v in vms[1..];
    }
  }

  // A rule whose only verdict statement is a final `accept` accepts iff every match holds.
  lemma {:induction false} RuleAccepts(t: Table, rule: seq<Expr>, p: Packet)
    requires rule != [] && rule[|rule| - 1].Accept?
    requires forall i :: 0 <= i < |rule| - 1 ==> !rule[i].Accept?
    ensures EvalRule(t, rule, p).Some? <==> forall i :: 0 <= i < |rule| - 1 ==> Matches(t, rule[i], p)
  {
    if |rule| > 1 {
      RuleAccepts(t, rule[1..], p);
      assert forall i :: 0 <= i < |rule| - 2 ==> rule[1..][i] == rule[i + 1];
      if forall i :: 0 <= i < |rule| - 2 ==> Matches(t, rule[1..][i], p) {
        forall i | 1 <= i < |rule| - 1
          ensures Matches(t, rule[i], p)
        {
          assert rule[i] == rule[1..][i - 1];
        }
      }
    }
  }

  // With a dropping policy, the chain accepts iff some rule does.
  lemma {:induction false} ChainAccepts(t: Table, rules: seq<seq<Expr>>, p: Packet)
    ensures EvalRules(t, rules, Dropped, p) == Accepted <==> SomeRuleAccepts(t, rules, p)
  {
    if rules != [] {
      OnlyAccepts(t, rules[0], p);
      ChainAccepts(t, rules[1..], p);
      assert forall i :: 0 <= i < |rules| - 1 ==> rules[1..][i] == rules[i + 1];
      if i :| 0 <= i < |rules| && EvalRule(t, rules[i], p).Some? && EvalRule(t, rules[0], p).None? {
        assert rules[1..][i - 1] == rules[i];
      }
    }
  }

  lemma {:induction false} OnlyAccepts(t: Table, rule: seq<Expr>, p: Packet)
    ensures EvalRule(t, rule, p) in {None, Some(Accepted)}
  {
    if rule != [] {
      OnlyAccepts(t, rule[1..], p);
    }
  }

  /* ---- layers of configurations ---- */

  // A table built by adding the commands of some configurations in turn; one layer is what a
  // replacement leaves.
  function Layered(cs: seq<Config>): Table
    requires forall c :: c in cs ==> c.network.guestSubnet.V4?
  {
    if cs == [] then EMPTY else Grown(Layered(cs[..|cs| - 1]), cs[|cs| - 1])
  }

  function AllRules(cs: seq<Config>): seq<seq<Expr>>
    requires forall c :: c in cs ==> c.network.guestSubnet.V4?
  {
    if cs == [] then [] else AllRules(cs[..|cs| - 1]) + Rules(cs[|cs| - 1])
  }

  lemma GrownRules(t: Table, c: Config)
    requires c.network.guestSubnet.V4?
    ensures "forward" in Grown(t, c).chains
    ensures Grown(t, c).chains["forward"]
            == if "forward" in t.chains then Chain(t.chains["forward"].policy, t.chains["forward"].rules + Rules(c))
               else Chain(Dropped, Rules(c))
  {
    assert [] + Rules(c) == Rules(c);
  }

  lemma {:induction false} LayeredRules(cs: seq<Config>)
    requires cs != [] && forall c :: c in cs ==> c.network.guestSubnet.V4?
    ensures "forward" in Layered(cs).chains && Layered(cs).chains["forward"] == Chain(Dropped, AllRules(cs))
    ensures |AllRules(cs)| == 4 * |cs|
  {
    var front, last := cs[..|cs| - 1], cs[|cs| - 1];
    GrownRules(Layered(front), last);
    if front == [] {
      assert AllRules(cs) == [] + Rules(last) == Rules(last);
    } else {
      LayeredRules(front);
    }
  }

  function FlowsOf(c: Config): set<Flow> { FlowSet(Elements(c.vms, c.controllers)) }

  function AllFlows(cs: seq<Config>): set<Flow> {
    if cs == [] then {} else AllFlows(cs[..|cs| - 1]) + FlowsOf(cs[|cs| - 1])
  }

  // Adding the commands to a table that has the set only grows the set: nothing is revoked.
  lemma AddWithoutDeleteKeepsFlows(t: Table, c: Config)
    requires c.network.guestSubnet.V4?
    ensures ALLOWED_SET in Grown(t, c).sets
    ensures Grown(t, c).sets[ALLOWED_SET]
            == if ALLOWED_SET in t.sets then t.sets[ALLOWED_SET] + FlowsOf(c) else FlowsOf(c)
  {
  }

  lemma {:induction false} LayeredFlows(cs: seq<Config>)
    requires cs != [] && forall c :: c in cs ==> c.network.guestSubnet.V4?
    ensures ALLOWED_SET in Layered(cs).sets && Layered(cs).sets[ALLOWED_SET] == AllFlows(cs)
  {
    var front, last := cs[..|cs| - 1], cs[|cs| - 1];
    AddWithoutDeleteKeepsFlows(Layered(front), last);
    if front == [] {
      assert AllFlows(cs) == {} + FlowsOf(last);
    } else {
      LayeredFlows(front);
    }
  }

  lemma {:induction false} AllFlowsMembers(cs: seq<Config>, f: Flow)
    ensures f in AllFlows(cs) <==> AnyAllows(cs, f.0, f.1)
  {
    if cs != [] {
      var front, last := cs[..|cs| - 1], cs[|cs| - 1];
      AllFlowsMembers(front, f);
      ElementsMembers(last.vms, last.controllers, f);
      assert f in FlowsOf(last) <==> PairAllowed(last, f.0, f.1);
      assert forall c :: c in cs <==> c in front || c == last;
    }
  }

  // The only table of one layer is the compiled one.
  lemma OneLayerIff(cs: seq<Config>)
    requires cs != [] && forall c :: c in cs ==> c.network.guestSubnet.V4?
    ensures Layered(cs) == TableFor(cs[|cs| - 1]) <==> |cs| == 1
  {
    if |cs| == 1 {
      assert cs[..0] == [];
      FreshIsTableFor(cs[0]);
    } else {
      LayeredRules(cs);
      FourRules(cs[|cs| - 1]);
    }
  }

  lemma FourRules(c: Config)
    requires c.network.guestSubnet.V4?
    ensures |TableFor(c).chains["forward"].rules| == 4
  {
  }

  // What each rule means in any table that has the set.
  lemma AdbRule(t: Table, c: Config, p: Packet)
    requires c.network.guestSubnet.V4? && ALLOWED_SET in t.sets
    ensures EvalRule(t, Rules(c)[0], p).Some? <==>
            && AdbShaped(c, p)
            && (p.ip.value.src, p.ip.value.dst) in t.sets[ALLOWED_SET]
  {
    var r := Rules(c)[0];
    RuleAccepts(t, r, p);
    assert (forall i :: 0 <= i < 4 ==> Matches(t, r[i], p)) <==>
           Matches(t, r[0], p) && Matches(t, r[1], p) && Matches(t, r[2], p) && Matches(t, r[3], p);
  }

  lemma ReplyRule(t: Table, c: Config, p: Packet)
    requires c.network.guestSubnet.V4?
    ensures EvalRule(t, Rules(c)[1], p).Some? <==> GuestToTailnetReply(c, p)
  {
    var r := Rules(c)[1];
    RuleAccepts(t, r, p);
    if p.ip.Some? {
      InSubnetIsMaskEquality(c.network.guestSubnet, p.ip.value.src);
    }
    assert (forall i :: 0 <= i < 4 ==> Matches(t, r[i], p)) <==>
           Matches(t, r[0], p) && Matches(t, r[1], p) && Matches(t, r[2], p) && Matches(t, r[3], p);
  }

  lemma OutboundRule(t: Table, c: Config, p: Packet)
    requires c.network.guestSubnet.V4?
    ensures EvalRule(t, Rules(c)[2], p).Some? <==> GuestToUplink(c, p)
  {
    var r := Rules(c)[2];
    RuleAccepts(t, r, p);
    if p.ip.Some? {
      InSubnetIsMaskEquality(c.network.guestSubnet, p.ip.value.src);
    }
    assert (forall i :: 0 <= i < 3 ==> Matches(t, r[i], p)) <==>
           Matches(t, r[0], p) && Matches(t, r[1], p) && Matches(t, r[2], p);
  }

  lemma UplinkRule(t: Table, c: Config, p: Packet)
    requires c.network.guestSubnet.V4?
    ensures EvalRule(t, Rules(c)[3], p).Some? <==> UplinkReply(c, p)
  {
    var r := Rules(c)[3];
    RuleAccepts(t, r, p);
    if p.ip.Some? {
      InSubnetIsMaskEquality(c.network.guestSubnet, p.ip.value.dst);
    }
    assert (forall i :: 0 <= i < 4 ==> Matches(t, r[i], p)) <==>
           Matches(t, r[0], p) && Matches(t, r[1], p) && Matches(t, r[2], p) && Matches(t, r[3], p);
  }

  predicate AdbShaped(c: Config, p: Packet) {
    && p.iif == c.router.tailscaleInterface && p.oif == c.router.guestInterface
    && p.ip.Some? && p.ip.value.tcpDport == Some(5555)
  }

  predicate OtherCases(c: Config, p: Packet) { GuestToTailnetReply(c, p) || GuestToUplink(c, p) || UplinkReply(c, p) }

  ghost predicate AnyAllows(cs: seq<Config>, src: Ipv4, dst: Ipv4) { exists c :: c in cs && PairAllowed(c, src, dst) }

  // What one layer's four rules accept in the whole table: its own interfaces and subnet, but the pairs
  // of every layer.
  ghost predicate LayerAccepts(cs: seq<Config>, c: Config, p: Packet) {
    (AdbShaped(c, p) && AnyAllows(cs, p.ip.value.src, p.ip.value.dst)) || OtherCases(c, p)
  }

  lemma InLayeredSet(cs: seq<Config>, f: Flow)
    requires cs != [] && forall c :: c in cs ==> c.network.guestSubnet.V4?
    ensures ALLOWED_SET in Layered(cs).sets
    ensures f in Layered(cs).sets[ALLOWED_SET] <==> AnyAllows(cs, f.0, f.1)
  {
    LayeredFlows(cs);
    AllFlowsMembers(cs, f);
  }

  predicate SomeRuleAccepts(t: Table, rules: seq<seq<Expr>>, p: Packet) {
    exists i :: 0 <= i < |rules| && EvalRule(t, rules[i], p).Some?
  }

  lemma EitherAccepts(t: Table, a: seq<seq<Expr>>, b: seq<seq<Expr>>, p: Packet)
    ensures SomeRuleAccepts(t, a + b, p) <==> SomeRuleAccepts(t, a, p) || SomeRuleAccepts(t, b, p)
  {
    if i :| 0 <= i < |a| && EvalRule(t, a[i], p).Some? {
      assert (a + b)[i] == a[i];
    }
    if i :| 0 <= i < |b| && EvalRule(t, b[i], p).Some? {
      assert (a + b)[|a| + i] == b[i];
    }
  }

  lemma {:induction false} SomeLayerAccepts(t: Table, cs: seq<Config>, p: Packet)
    requires forall c :: c in cs ==> c.network.guestSubnet.V4?
    ensures SomeRuleAccepts(t, AllRules(cs), p) <==> exists c :: c in cs && SomeRuleAccepts(t, Rules(c), p)
  {
    if cs != [] {
      var front, last := cs[..|cs| - 1], cs[|cs| - 1];
      SomeLayerAccepts(t, front, p);
      EitherAccepts(t, AllRules(front), Rules(last), p);
      assert forall c :: c in cs <==> c in front || c == last;
    }
  }

  lemma LayerVerdict(cs: seq<Config>, c: Config, p: Packet)
    requires c in cs && forall d :: d in cs ==> d.network.guestSubnet.V4?
    ensures SomeRuleAccepts(Layered(cs), Rules(c), p) <==> LayerAccepts(cs, c, p)
  {
    var t := Layered(cs);
    LayeredFlows(cs);
    if p.ip.Some? {
      InLayeredSet(cs, (p.ip.value.src, p.ip.value.dst));
    }
    AdbRule(t, c, p);
    ReplyRule(t, c, p);
    OutboundRule(t, c, p);
    UplinkRule(t, c, p);
    OneOfFour(t, Rules(c), p);
  }

  lemma OneOfFour(t: Table, rules: seq<seq<Expr>>, p: Packet)
    requires |rules| == 4
    ensures SomeRuleAccepts(t, rules, p) <==>
            || EvalRule(t, rules[0], p).Some? || EvalRule(t, rules[1], p).Some?
            || EvalRule(t, rules[2], p).Some? || EvalRule(t, rules[3], p).Some?
  {
  }

  // The verdict of a table of any number of layers.
  lemma LayeredVerdict(cs: seq<Config>, p: Packet)
    requires cs != [] && forall c :: c in cs ==> c.network.guestSubnet.V4?
    ensures "forward" in Layered(cs).chains
    ensures Forward(Layered(cs), p) == Accepted <==> exists c :: c in cs && LayerAccepts(cs, c, p)
  {
    LayeredRules(cs);
    ChainAccepts(Layered(cs), AllRules(cs), p);
    SomeLayerAccepts(Layered(cs), cs, p);
    forall c | c in cs
      ensures SomeRuleAccepts(Layered(cs), Rules(c), p) <==> LayerAccepts(cs, c, p)
    {
      LayerVerdict(cs, c, p);
    }
  }

  // The compiler is correct: the emitted chain accepts a packet iff one of the four cases holds.
  lemma ForwardVerdict(c: Config, p: Packet)
    requires c.network.guestSubnet.V4?
    ensures Forward(TableFor(c), p) == Accepted <==>
            TailnetToGuest(c, p) || GuestToTailnetReply(c, p) || GuestToUplink(c, p) || UplinkReply(c, p)
    ensures p.ip.None? ==> Forward(TableFor(c), p) == Dropped
  {
    OneLayerIff([c]);
    LayeredVerdict([c], p);
    assert LayerAccepts([c], c, p) <==> TailnetToGuest(c, p) || OtherCases(c, p);
  }

  /* ---- address translation ---- */

  // A rule rewrites the source address when all its matches before the masquerade statement hold.
  predicate Rewrites(t: Table, rule: seq<Expr>, p: Packet) {
    && rule != [] && !rule[0].Accept?
    && (rule[0].Masquerade? || (Matches(t, rule[0], p) && Rewrites(t, rule[1..], p)))
  }

  predicate SomeRuleRewrites(t: Table, rules: seq<seq<Expr>>, p: Packet) {
    exists i :: 0 <= i < |rules| && Rewrites(t, rules[i], p)
  }

  predicate Masqueraded(t: Table, p: Packet)
    requires "postrouting" in t.chains
  {
    SomeRuleRewrites(t, t.chains["postrouting"].rules, p)
  }

  predicate LeavesByUplink(c: Config, p: Packet) {
    p.oif == c.router.uplinkInterface && p.ip.Some? && InSubnet(c.network.guestSubnet, p.ip.value.src)
  }

  lemma NatRuleRewrites(t: Table, c: Config, p: Packet)
    requires c.network.guestSubnet.V4?
    ensures Rewrites(t, NatRule(c), p) <==> LeavesByUplink(c, p)
  {
    var r := NatRule(c);
    if p.ip.Some? {
      InSubnetIsMaskEquality(c.network.guestSubnet, p.ip.value.src);
    }
    assert r[1..][0] == r[1] && r[1..][1..][0] == r[2];
    assert Rewrites(t, r, p) <==> Matches(t, r[0], p) && Matches(t, r[1], p) && Rewrites(t, r[1..][1..], p);
  }

  function AllNats(cs: seq<Config>): seq<seq<Expr>>
    requires forall c :: c in cs ==> c.network.guestSubnet.V4?
  {
    if cs == [] then [] else AllNats(cs[..|cs| - 1]) + [NatRule(cs[|cs| - 1])]
  }

  lemma {:induction false} LayeredNats(cs: seq<Config>)
    requires cs != [] && forall c :: c in cs ==> c.network.guestSubnet.V4?
    ensures "postrouting" in Layered(cs).chains && Layered(cs).chains["postrouting"].rules == AllNats(cs)
  {
    var front, last := cs[..|cs| - 1], cs[|cs| - 1];
    GrownNat(Layered(front), last);
    if front == [] {
      assert AllNats(cs) == [] + [NatRule(last)];
    } else {
      LayeredNats(front);
    }
  }

  lemma GrownNat(t: Table, c: Config)
    requires c.network.guestSubnet.V4?
    ensures "postrouting" in Grown(t, c).chains
    ensures Grown(t, c).chains["postrouting"].rules
            == (if "postrouting" in t.chains then t.chains["postrouting"].rules else []) + [NatRule(c)]
  {
  }

  lemma {:induction false} SomeNatRewrites(t: Table, cs: seq<Config>, p: Packet)
    requires forall c :: c in cs ==> c.network.guestSubnet.V4?
    ensures SomeRuleRewrites(t, AllNats(cs), p) <==> exists c :: c in cs && LeavesByUplink(c, p)
  {
    if cs != [] {
      var front, last := cs[..|cs| - 1], cs[|cs| - 1];
      SomeNatRewrites(t, front, p);
      NatRuleRewrites(t, last, p);
      var rules := AllNats(cs);
      assert forall i :: 0 <= i < |rules| - 1 ==> rules[i] == AllNats(front)[i];
      assert rules[|rules| - 1] == NatRule(last);
      assert forall c :: c in cs <==> c in front || c == last;
    }
  }

  // A table of any number of layers rewrites exactly the packets that leave one layer's guests by its uplink.
  lemma MasqueradedIff(cs: seq<Config>, p: Packet)
    requires cs != [] && forall c :: c in cs ==> c.network.guestSubnet.V4?
    ensures "postrouting" in Layered(cs).chains
    ensures Masqueraded(Layered(cs), p) <==> exists c :: c in cs && LeavesByUplink(c, p)
  {
    LayeredNats(cs);
    SomeNatRewrites(Layered(cs), cs, p);
  }

  // Packets from the tailnet reach the guests with their own source address, whatever interfaces coincide.
  lemma ControllersAreNotMasqueraded(c: Config, p: Packet)
    requires WellFormed(c) && TailnetToGuest(c, p)
    ensures Forward(TableFor(c), p) == Accepted && !Masqueraded(TableFor(c), p)
  {
    ForwardVerdict(c, p);
    OneNat(c, p);
    ControllerIsNoGuest(c, p.ip.value.src, p.ip.value.dst);
  }

  lemma OneNat(c: Config, p: Packet)
    requires c.network.guestSubnet.V4?
    ensures Masqueraded(TableFor(c), p) <==> LeavesByUplink(c, p)
  {
    OneLayerIff([c]);
    MasqueradedIff([c], p);
  }

  lemma ControllerIsNoGuest(c: Config, src: Ipv4, dst: Ipv4)
    requires WellFormed(c) && PairAllowed(c, src, dst)
    ensures !InSubnet(c.network.guestSubnet, src)
  {
    var v, k :| v in c.vms && k in c.controllers && Grants(v.value, k.value, src, dst);
    assert ControllerOk(k);
    if InSubnet(c.network.guestSubnet, src) {
      GuestNeverTailnetSource(c.network.guestSubnet, src);
    }
  }

  /* ---- what shared interfaces cost ---- */

  // Validation does not compare the interfaces. The ADB rule is the only way to open a connection
  // towards the guest interface if and only if that interface is not the uplink.
  lemma NewPacketToGuestIff(c: Config)
    requires c.network.guestSubnet.V4?
    ensures (forall p: Packet :: p.oif == c.router.guestInterface && p.ct == New ==>
               (Forward(TableFor(c), p) == Accepted <==> TailnetToGuest(c, p)))
            <==> c.router.guestInterface != c.router.uplinkInterface
  {
    if c.router.guestInterface != c.router.uplinkInterface {
      forall p: Packet | p.oif == c.router.guestInterface && p.ct == New
        ensures Forward(TableFor(c), p) == Accepted <==> TailnetToGuest(c, p)
      {
        NewPacketToGuest(c, p);
      }
    } else {
      var guest := Network(c.network.guestSubnet);
      SharedInterfaceOpens(c, Packet(c.router.guestInterface, c.router.guestInterface,
                                     Some(IpHeader(guest, guest, None)), New));
    }
  }

  lemma NewPacketToGuest(c: Config, p: Packet)
    requires c.network.guestSubnet.V4? && c.router.guestInterface != c.router.uplinkInterface
    requires p.oif == c.router.guestInterface && p.ct == New
    ensures Forward(TableFor(c), p) == Accepted <==> TailnetToGuest(c, p)
  {
    ForwardVerdict(c, p);
  }

  // When the uplink is the guest interface, any guest packet routed back out of it is accepted, whatever
  // its destination port.
  lemma SharedInterfaceOpens(c: Config, p: Packet)
    requires c.network.guestSubnet.V4? && c.router.guestInterface == c.router.uplinkInterface
    requires p.iif == p.oif == c.router.guestInterface && p.ct == New
    requires p.ip.Some? && InSubnet(c.network.guestSubnet, p.ip.value.src)
    ensures Forward(TableFor(c), p) == Accepted
  {
    ForwardVerdict(c, p);
  }

  predicate TailnetApart(r: Router) {
    r.tailscaleInterface != r.uplinkInterface && r.tailscaleInterface != r.guestInterface
  }

  // A packet from the tailnet to the guests, new or on an established connection, needs an allowed pair
  // if and only if the tailnet interface is neither of the other two.
  lemma CrossingIff(c: Config)
    requires c.network.guestSubnet.V4?
    ensures (forall p: Packet :: p.iif == c.router.tailscaleInterface && p.oif == c.router.guestInterface ==>
               (Forward(TableFor(c), p) == Accepted <==> TailnetToGuest(c, p)))
            <==> TailnetApart(c.router)
  {
    if TailnetApart(c.router) {
      forall p: Packet | p.iif == c.router.tailscaleInterface && p.oif == c.router.guestInterface
        ensures Forward(TableFor(c), p) == Accepted <==> TailnetToGuest(c, p)
      {
        ForwardVerdict(c, p);
      }
    } else {
      TailnetSharedCrosses(c, Network(c.network.guestSubnet));
    }
  }

  // Otherwise an established packet between guest addresses of no pair and on no port crosses.
  lemma TailnetSharedCrosses(c: Config, guest: Ipv4)
    requires !TailnetApart(c.router) && InSubnet(c.network.guestSubnet, guest)
    ensures var p := Packet(c.router.tailscaleInterface, c.router.guestInterface, Some(IpHeader(guest, guest, None)),
                            Established);
            Forward(TableFor(c), p) == Accepted && !TailnetToGuest(c, p)
  {
    ForwardVerdict(c, Packet(c.router.tailscaleInterface, c.router.guestInterface, Some(IpHeader(guest, guest, None)),
                             Established));
  }

  /* ---- installing it ---- */

  datatype FirewallError = Inspect | Apply

  class Nft {
    var kernel: Kernel

    constructor (initial: Kernel)
      ensures kernel == initial
    {
      kernel := initial;
    }

    // `ran` and `listed`: whether `nft list table` could be run, and whether it exited successfully.
    // Another exit status counts as no table, and by the time of the transaction the kernel may have
    // changed, so `listed` may be wrong either way. `accepted`: whether the kernel was willing to take
    // the transaction.
    method Apply(c: Config, ran: bool, listed: bool, accepted: bool) returns (r: Result<(), FirewallError>)
      requires c.network.guestSubnet.V4?
      modifies this
      ensures r.Ok? <==> ran && accepted && (listed ==> TABLE in old(kernel))
      ensures r.Err? ==> kernel == old(kernel) && r.error == if ran then FirewallError.Apply else Inspect
      ensures r.Ok? && !(TABLE in old(kernel) && !listed) ==> kernel == old(kernel)[TABLE := TableFor(c)]
      ensures r.Ok? && TABLE in old(kernel) && !listed ==> kernel == old(kernel)[TABLE := Grown(old(kernel)[TABLE], c)]
      ensures r.Ok? && Ours(old(kernel)) ==>
                (kernel == old(kernel)[TABLE := TableFor(c)] <==> listed == (TABLE in old(kernel)))
    {
      if !ran {
        return Err(Inspect);
      }
      var commands := Ruleset(c, listed);
      ListingEffect(c, listed, kernel);
      FreshIsTableFor(c);
      if Ours(kernel) {
        ListingInstallsIff(c, listed, kernel);
      }
      var after := Execute(kernel, commands);
      if !accepted || after.None? {
        return Err(FirewallError.Apply);
      }
      kernel := after.value;
      r := Ok(());
    }
  }

  // The input on which an apply that succeeds does not revoke: the table is there and was not listed. The
  // set becomes the union, and every packet the old policy let through is still let through.
  lemma UnlistedTableKeepsOldPolicy(kernel: Kernel, before: Config, c: Config, p: Packet)
    requires before.network.guestSubnet.V4? && c.network.guestSubnet.V4?
    requires TABLE in kernel && kernel[TABLE] == TableFor(before)
    ensures var after := Execute(kernel, Listing(c, false));
            && after.Some? && TABLE in after.value && after.value[TABLE] == Layered([before, c])
            && ALLOWED_SET in after.value[TABLE].sets
            && after.value[TABLE].sets[ALLOWED_SET]
               == FlowsOf(before) + FlowsOf(c)
            && "forward" in after.value[TABLE].chains
            && (Forward(TableFor(before), p) == Accepted ==> Forward(after.value[TABLE], p) == Accepted)
  {
    var cs := [before, c];
    assert cs[..1] == [before];
    OneLayerIff([before]);
    ListingEffect(c, false, kernel);
    AddWithoutDeleteKeepsFlows(kernel[TABLE], c);
    LayeredVerdict([before], p);
    LayeredVerdict(cs, p);
    assert before in cs && c in cs;
    if LayerAccepts([before], before, p) {
      assert LayerAccepts(cs, before, p);
    }
  }
}
