/** The parsed configuration, its validation, and the controller/VM permission relation. */
module Config {
  import opened Wrappers
  import opened Text
  import opened Address

  type U16 = n: nat | n < 0x1_0000
  type U32 = n: nat | n < 0x1_0000_0000

  datatype Entry<+T> = Entry(key: string, value: T)

  // BTreeMap<String, T>: entries in strictly ascending key order.
  type TreeMap<+T> = m: seq<Entry<T>> | Ascending(m)

  predicate Ascending<T>(m: seq<Entry<T>>) {
    forall i, j :: 0 <= i < j < |m| ==> Before(m[i].key, m[j].key)
  }

  datatype Controller = Controller(name: string, sources: seq<Ipv4>, keyFile: string, active: bool)

  datatype Vm = Vm(
    name: string, labels: seq<string>, address: Ipv4, baseImage: string, controllers: seq<string>,
    vcpus: U16, memoryMib: U32, autostart: bool)

  datatype Router = Router(
    hostname: string, authKeyFile: string, tailscaleInterface: string, uplinkInterface: string,
    guestInterface: string, lanAddress: Ipv4)

  datatype NetworkConfig = NetworkConfig(
    routerUplinkNetwork: string, guestNetwork: string, guestBridge: string, guestSubnet: IpNet)

  datatype Storage = Storage(stateDir: string, imageDir: string, vmDir: string)

  datatype Config = Config(
    router: Router, controllers: TreeMap<Controller>, vms: TreeMap<Vm>, network: NetworkConfig, storage: Storage)

  datatype ConfigError = Validation

  ghost function Keys<T>(m: seq<Entry<T>>): (s: set<string>) {
    set e | e in m :: e.key
  }

  predicate Distinct<T(==)>(s: seq<T>) {
    forall i, j :: 0 <= i < j < |s| ==> s[i] != s[j]
  }

  lemma KeysDistinct<T>(m: TreeMap<T>)
    ensures forall i, j :: 0 <= i < j < |m| ==> m[i].key != m[j].key
  {
    forall i, j | 0 <= i < j < |m|
      ensures m[i].key != m[j].key
    {
      BeforeIrreflexive(m[i].key);
    }
  }

  /* ---- what a valid configuration is, declaratively ---- */

  predicate IsIdentifierChar(c: char) {
    'a' <= c <= 'z' || 'A' <= c <= 'Z' || '0' <= c <= '9' || c == '_' || c == '-' || c == '.'
  }

  predicate IsIdentifier(s: string) {
    0 < |s| <= 63 && forall c :: c in s ==> IsIdentifierChar(c)
  }

  predicate IsInterface(s: string) {
    0 < |s| <= 15 && forall c :: c in s ==> IsIdentifierChar(c)
  }

  predicate IsHostname(s: string) {
    0 < |s| <= 63 && forall c :: c in s ==> IsIdentifierChar(c) && c != '_'
  }

  predicate Rooted(path: string) { "/" <= path }

  ghost predicate ControllerOk(e: Entry<Controller>) {
    && IsIdentifier(e.key)
    && e.value.name == e.key
    && (e.value.active ==> e.value.sources != [])
    && Rooted(e.value.keyFile)
    && forall s :: s in e.value.sources ==> IsTailnetSource(s)
  }

  // Every active controller's sources, in order.
  function ActiveSources(cs: seq<Entry<Controller>>): seq<Ipv4> {
    if cs == [] then []
    else
      var last := cs[|cs| - 1].value;
      ActiveSources(cs[..|cs| - 1]) + if last.active then last.sources else []
  }

  ghost predicate VmOk(net: IpNet, known: set<string>, e: Entry<Vm>) {
    && IsIdentifier(e.key)
    && e.value.name == e.key
    && InSubnet(net, e.value.address)
    && (forall l :: l in e.value.labels ==> IsIdentifier(l))
    && Distinct(e.value.labels)
    && Rooted(e.value.baseImage)
    && 1 <= e.value.vcpus <= 64
    && e.value.memoryMib >= 512
    && Distinct(e.value.controllers)
    && (forall c :: c in e.value.controllers ==> c in known)
  }

  predicate DistinctAddresses(vms: seq<Entry<Vm>>) {
    forall i, j :: 0 <= i < j < |vms| ==> vms[i].value.address != vms[j].value.address
  }

  predicate PrivateSubnet(net: IpNet) { net.V4? && IsPrivate(Network(net)) }

  predicate SiteOk(c: Config) {
    && PrivateSubnet(c.network.guestSubnet)
    && IsHostname(c.router.hostname)
    && Rooted(c.router.authKeyFile)
    && InSubnet(c.network.guestSubnet, c.router.lanAddress)
    && c.controllers != [] && c.vms != []
  }

  predicate NamesOk(c: Config) {
    && IsInterface(c.router.tailscaleInterface)
    && IsInterface(c.router.uplinkInterface)
    && IsInterface(c.router.guestInterface)
    && IsInterface(c.network.guestBridge)
    && IsIdentifier(c.network.routerUplinkNetwork)
    && IsIdentifier(c.network.guestNetwork)
    && Rooted(c.storage.stateDir) && Rooted(c.storage.imageDir) && Rooted(c.storage.vmDir)
  }

  ghost predicate WellFormed(c: Config) {
    && SiteOk(c)
    && (forall e :: e in c.controllers ==> ControllerOk(e))
    && Distinct(ActiveSources(c.controllers))
    && (forall e :: e in c.vms ==> VmOk(c.network.guestSubnet, Keys(c.controllers), e))
    && DistinctAddresses(c.vms)
    && NamesOk(c)
  }

  /* ---- the checks as the code runs them ---- */

  // Path::is_absolute.
  predicate IsAbsolute(path: string) { path != "" && path[0] == '/' }

  // The byte-length test and the byte-class test together bound the number of characters.
  predicate ValidName(s: string, limit: nat, underscore: bool)
    ensures underscore ==>
              (ValidName(s, limit, underscore) <==> 0 < |s| <= limit && forall c :: c in s ==> IsIdentifierChar(c))
    ensures !underscore && limit == 63 ==> (ValidName(s, limit, underscore) <==> IsHostname(s))
  {
    assert (forall c :: c in s ==> IsIdentifierChar(c)) ==> ByteLen(s) == |s| by {
      if forall c :: c in s ==> IsIdentifierChar(c) {
        assert forall i :: 0 <= i < |s| ==> s[i] in s;
        AsciiByteLen(s);
      }
    }
    s != "" && ByteLen(s) <= limit
    && forall c :: c in s ==> IsAlphanumeric(c) || c == '-' || c == '.' || (underscore && c == '_')
  }

  lemma DistinctSnoc<T>(s: seq<T>, x: T)
    requires Distinct(s)
    ensures Distinct(s + [x]) <==> x !in s
  {
    if i :| 0 <= i < |s| && s[i] == x {
      assert (s + [x])[i] == (s + [x])[|s|];
    }
  }

  lemma DistinctPrefix<T>(s: seq<T>, t: seq<T>)
    requires Distinct(t) && s <= t
    ensures Distinct(s)
  {
    assert forall i :: 0 <= i < |s| ==> s[i] == t[i];
  }

  lemma MembersSnoc<T>(s: seq<T>, x: T)
    ensures (set y | y in s + [x]) == (set y | y in s) + {x}
  {
  }

  // The active sources once a controller's sources are counted in.
  function Joined(controller: Controller, before: seq<Ipv4>, j: nat): seq<Ipv4>
    requires j <= |controller.sources|
  {
    if controller.active then before + controller.sources[..j] else before
  }

  ghost predicate SourcesOk(controller: Controller, before: seq<Ipv4>) {
    && (forall s :: s in controller.sources ==> IsTailnetSource(s))
    && Distinct(Joined(controller, before, |controller.sources|))
  }

  // The inner loop: every source is a tailnet address, and an active one was not seen before.
  method ValidateSources(controller: Controller, seen: set<Ipv4>, ghost before: seq<Ipv4>)
    returns (r: Result<set<Ipv4>, ConfigError>)
    requires seen == (set x | x in before) && Distinct(before)
    ensures r.Ok? <==> SourcesOk(controller, before)
    ensures r.Ok? ==> r.value == set x | x in Joined(controller, before, |controller.sources|)
  {
    var sources, all := controller.sources, seen;
    for j := 0 to |sources|
      invariant forall k :: 0 <= k < j ==> IsTailnetSource(sources[k])
      invariant Distinct(Joined(controller, before, j))
      invariant all == set x | x in Joined(controller, before, j)
    {
      var source := sources[j];
      assert source in sources;
      if !IsTailnetSource(source) {
        return Err(Validation);
      }
      ghost var done := Joined(controller, before, j);
      if controller.active {
        assert Joined(controller, before, j + 1) == done + [source];
        DistinctSnoc(done, source);
        MembersSnoc(done, source);
        if source in all {
          if SourcesOk(controller, before) {
            DistinctPrefix(done + [source], Joined(controller, before, |sources|));
          }
          return Err(Validation);
        }
        all := all + {source};
      }
    }
    r := Ok(all);
  }

  method ValidateController(name: string, controller: Controller, seen: set<Ipv4>, ghost before: seq<Ipv4>)
    returns (r: Result<set<Ipv4>, ConfigError>)
    requires seen == (set x | x in before) && Distinct(before)
    ensures r.Ok? <==> ControllerOk(Entry(name, controller)) && SourcesOk(controller, before)
    ensures r.Ok? ==> r.value == set x | x in Joined(controller, before, |controller.sources|)
  {
    if !ValidName(name, 63, true) || controller.name != name {
      return Err(Validation);
    }
    if controller.active && controller.sources == [] {
      return Err(Validation);
    }
    if !IsAbsolute(controller.keyFile) {
      return Err(Validation);
    }
    r := ValidateSources(controller, seen, before);
  }

  lemma ActiveSnoc(cs: seq<Entry<Controller>>, i: nat)
    requires i < |cs|
    ensures ActiveSources(cs[..i + 1])
            == Joined(cs[i].value, ActiveSources(cs[..i]), |cs[i].value.sources|)
  {
    assert cs[..i + 1][..i] == cs[..i];
  }

  method ValidateControllers(c: Config) returns (r: Result<(), ConfigError>)
    ensures r.Ok? <==> (forall e :: e in c.controllers ==> ControllerOk(e)) && Distinct(ActiveSources(c.controllers))
  {
    var cs := c.controllers;
    var seen: set<Ipv4> := {};
    for i := 0 to |cs|
      invariant forall k :: 0 <= k < i ==> ControllerOk(cs[k])
      invariant Distinct(ActiveSources(cs[..i]))
      invariant seen == set x | x in ActiveSources(cs[..i])
    {
      assert cs[i] in c.controllers;
      ghost var before := ActiveSources(cs[..i]);
      ActiveSnoc(cs, i);
      ActivePrefix(cs, i + 1);
      var checked := ValidateController(cs[i].key, cs[i].value, seen, before);
      if checked.Err? {
        if Distinct(ActiveSources(cs)) {
          DistinctPrefix(ActiveSources(cs[..i + 1]), ActiveSources(cs));
        }
        return Err(Validation);
      }
      seen := checked.value;
    }
    assert cs[..|cs|] == cs;
    r := Ok(());
  }

  // A prefix of the entries gives a prefix of the sources.
  lemma {:induction false} ActivePrefix(cs: seq<Entry<Controller>>, n: nat)
    requires n <= |cs|
    ensures ActiveSources(cs[..n]) <= ActiveSources(cs)
  {
    if n < |cs| {
      ActivePrefix(cs[..|cs| - 1], n);
      assert cs[..|cs| - 1][..n] == cs[..n];
    } else {
      assert cs[..n] == cs;
    }
  }

  method ValidateLabels(labels: seq<string>) returns (ok: bool)
    ensures ok <==> (forall l :: l in labels ==> IsIdentifier(l)) && Distinct(labels)
  {
    var seen: set<string> := {};
    for j := 0 to |labels|
      invariant forall k :: 0 <= k < j ==> IsIdentifier(labels[k])
      invariant Distinct(labels[..j])
      invariant forall l :: l in seen <==> exists k :: 0 <= k < j && labels[k] == l
    {
      assert labels[j] in labels;
      if !ValidName(labels[j], 63, true) || labels[j] in seen {
        return false;
      }
      seen := seen + {labels[j]};
    }
    assert labels[..|labels|] == labels;
    ok := true;
  }

  method ValidateReferences(c: Config, names: seq<string>) returns (ok: bool)
    ensures ok <==> (forall n :: n in names ==> n in Keys(c.controllers)) && Distinct(names)
  {
    var selected: set<string> := {};
    for j := 0 to |names|
      invariant forall k :: 0 <= k < j ==> names[k] in Keys(c.controllers)
      invariant Distinct(names[..j])
      invariant forall n :: n in selected <==> exists k :: 0 <= k < j && names[k] == n
    {
      assert names[j] in names;
      if names[j] in selected || Lookup(c.controllers, names[j]).None? {
        return false;
      }
      selected := selected + {names[j]};
    }
    assert names[..|names|] == names;
    ok := true;
  }

  method ValidateVms(c: Config) returns (r: Result<(), ConfigError>)
    ensures r.Ok? <==>
            && (forall e :: e in c.vms ==> VmOk(c.network.guestSubnet, Keys(c.controllers), e))
            && DistinctAddresses(c.vms)
  {
    var vms, net := c.vms, c.network.guestSubnet;
    ghost var known := Keys(c.controllers);
    var addresses: set<Ipv4> := {};
    for i := 0 to |vms|
      invariant forall k :: 0 <= k < i ==> VmOk(net, known, vms[k])
      invariant DistinctAddresses(vms[..i])
      invariant forall a :: a in addresses <==> exists k :: 0 <= k < i && vms[k].value.address == a
    {
      var name, vm := vms[i].key, vms[i].value;
      assert vms[i] in c.vms;
      if !ValidName(name, 63, true) || vm.name != name {
        return Err(Validation);
      }
      if !InSubnet(net, vm.address) {
        return Err(Validation);
      }
      if vm.address in addresses {
        return Err(Validation);
      }
      addresses := addresses + {vm.address};
      var labelsOk := ValidateLabels(vm.labels);
      if !labelsOk {
        return Err(Validation);
      }
      if !IsAbsolute(vm.baseImage) {
        return Err(Validation);
      }
      if vm.vcpus == 0 || vm.vcpus > 64 || vm.memoryMib < 512 {
        return Err(Validation);
      }
      var referencesOk := ValidateReferences(c, vm.controllers);
      if !referencesOk {
        return Err(Validation);
      }
    }
    assert vms[..|vms|] == vms;
    r := Ok(());
  }

  method ValidateSite(c: Config) returns (ok: bool)
    ensures ok <==> SiteOk(c)
  {
    var subnet := c.network.guestSubnet;
    if !subnet.V4? || !IsPrivate(Network(subnet)) || IsLoopback(Network(subnet)) {
      return false;
    }
    if !ValidName(c.router.hostname, 63, false) {
      return false;
    }
    if !IsAbsolute(c.router.authKeyFile) {
      return false;
    }
    if !InSubnet(subnet, c.router.lanAddress) {
      return false;
    }
    ok := c.controllers != [] && c.vms != [];
  }

  method ValidateNames(c: Config) returns (ok: bool)
    ensures ok <==> NamesOk(c)
  {
    var interfaces := [c.router.tailscaleInterface, c.router.uplinkInterface, c.router.guestInterface,
      c.network.guestBridge];
    for i := 0 to |interfaces|
      invariant forall k :: 0 <= k < i ==> IsInterface(interfaces[k])
    {
      if !ValidName(interfaces[i], 15, true) {
        assert i == 0 || i == 1 || i == 2 || i == 3;
        return false;
      }
    }
    var networks := [c.network.routerUplinkNetwork, c.network.guestNetwork];
    for i := 0 to |networks|
      invariant forall k :: 0 <= k < i ==> IsIdentifier(networks[k])
    {
      if !ValidName(networks[i], 63, true) {
        assert i == 0 || i == 1;
        return false;
      }
    }
    var paths := [c.storage.stateDir, c.storage.imageDir, c.storage.vmDir];
    for i := 0 to |paths|
      invariant forall k :: 0 <= k < i ==> Rooted(paths[k])
    {
      if !IsAbsolute(paths[i]) {
        assert i == 0 || i == 1 || i == 2;
        return false;
      }
    }
    assert IsInterface(interfaces[0]) && IsInterface(interfaces[1]) && IsInterface(interfaces[2])
           && IsInterface(interfaces[3]);
    assert IsIdentifier(networks[0]) && IsIdentifier(networks[1]);
    assert Rooted(paths[0]) && Rooted(paths[1]) && Rooted(paths[2]);
    ok := true;
  }

  method Validate(c: Config) returns (r: Result<(), ConfigError>)
    ensures r.Ok? <==> WellFormed(c)
  {
    var siteOk := ValidateSite(c);
    if !siteOk {
      return Err(Validation);
    }
    r := ValidateControllers(c);
    if r.Err? {
      return;
    }
    r := ValidateVms(c);
    if r.Err? {
      return;
    }
    var namesOk := ValidateNames(c);
    r := if namesOk then Ok(()) else Err(Validation);
  }

  // The names are skipped by the parser; `load` fills them in from the map keys and then validates.
  function Named(c: Config): (r: Config) {
    c.(controllers := seq(|c.controllers|, i requires 0 <= i < |c.controllers| =>
                          Entry(c.controllers[i].key, c.controllers[i].value.(name := c.controllers[i].key))),
       vms := seq(|c.vms|, i requires 0 <= i < |c.vms| =>
                  Entry(c.vms[i].key, c.vms[i].value.(name := c.vms[i].key))))
  }

  // Everything as it was parsed, in the order of the keys, but for the names, which are the keys.
  predicate FilledIn(parsed: Config, c: Config) {
    && c.router == parsed.router && c.network == parsed.network && c.storage == parsed.storage
    && |c.controllers| == |parsed.controllers| && |c.vms| == |parsed.vms|
    && (forall i :: 0 <= i < |c.controllers| ==>
          var (k, p) := (c.controllers[i], parsed.controllers[i]);
          && k.key == k.value.name == p.key && k.value.sources == p.value.sources
          && k.value.keyFile == p.value.keyFile && k.value.active == p.value.active)
    && (forall i :: 0 <= i < |c.vms| ==>
          var (v, p) := (c.vms[i], parsed.vms[i]);
          && v.key == v.value.name == p.key && v.value.labels == p.value.labels && v.value.address == p.value.address
          && v.value.baseImage == p.value.baseImage && v.value.controllers == p.value.controllers
          && v.value.vcpus == p.value.vcpus && v.value.memoryMib == p.value.memoryMib
          && v.value.autostart == p.value.autostart)
  }

  lemma FilledInIff(parsed: Config, c: Config)
    ensures FilledIn(parsed, c) <==> c == Named(parsed)
  {
    var n := Named(parsed);
    if FilledIn(parsed, c) {
      forall i | 0 <= i < |c.controllers|
        ensures c.controllers[i] == n.controllers[i]
      {
      }
      forall i | 0 <= i < |c.vms|
        ensures c.vms[i] == n.vms[i]
      {
      }
      assert c.controllers == n.controllers && c.vms == n.vms;
    }
  }

  method Load(parsed: Config) returns (r: Result<Config, ConfigError>)
    ensures forall c :: FilledIn(parsed, c) ==> (r.Ok? <==> WellFormed(c))
    ensures r.Ok? ==> FilledIn(parsed, r.value)
  {
    forall c
      ensures FilledIn(parsed, c) <==> c == Named(parsed)
    {
      FilledInIff(parsed, c);
    }
    var controllers: seq<Entry<Controller>>, vms: seq<Entry<Vm>> := parsed.controllers, parsed.vms;
    for i := 0 to |controllers|
      invariant |controllers| == |parsed.controllers|
      invariant forall k :: 0 <= k < |controllers| ==>
        controllers[k] == if k < i then Named(parsed).controllers[k] else parsed.controllers[k]
    {
      controllers := controllers[i := Entry(controllers[i].key, controllers[i].value.(name := controllers[i].key))];
    }
    for i := 0 to |vms|
      invariant |vms| == |parsed.vms|
      invariant forall k :: 0 <= k < |vms| ==> vms[k] == if k < i then Named(parsed).vms[k] else parsed.vms[k]
    {
      vms := vms[i := Entry(vms[i].key, vms[i].value.(name := vms[i].key))];
    }
    assert controllers == Named(parsed).controllers && vms == Named(parsed).vms;
    var config := parsed.(controllers := controllers, vms := vms);
    var checked := Validate(config);
    r := if checked.Ok? then Ok(config) else Err(checked.error);
  }

  // BTreeMap::get.
  function Lookup<T(!new)>(m: seq<Entry<T>>, key: string): (r: Option<T>)
    ensures r.Some? <==> key in Keys(m)
    ensures r.Some? ==> Entry(key, r.value) in m
  {
    if m == [] then None
    else if m[0].key == key then assert m[0] in m; Some(m[0].value)
    else
      var r := Lookup(m[1..], key);
      assert forall e :: e in m <==> e == m[0] || e in m[1..];
      r
  }

  /* ---- the permission relation ---- */

  // Which controllers may reach a VM: the filter of `controllers_for_vm`.
  predicate Permitted(vm: Vm, controller: Controller) {
    controller.active && (vm.controllers == [] || controller.name in vm.controllers)
  }

  function ControllersForVm(controllers: seq<Entry<Controller>>, vm: Vm): (r: seq<Controller>)
    ensures forall c :: c in r <==> && c.active && (vm.controllers == [] || c.name in vm.controllers)
                                    && exists e :: e in controllers && e.value == c
  {
    if controllers == [] then []
    else
      var rest := ControllersForVm(controllers[1..], vm);
      assert forall e :: e in controllers <==> e == controllers[0] || e in controllers[1..];
      if Permitted(vm, controllers[0].value) then [controllers[0].value] + rest else rest
  }
}
