/** Where each compiled flow comes from, and how the flow list follows edits of the configuration. */
module Policy {
  import opened Address
  import opened Config
  import opened Firewall

  function Own(k: Controller): seq<Ipv4> { if k.active then k.sources else [] }

  lemma {:induction false} ActiveSourcesFront(cs: seq<Entry<Controller>>)
    requires cs != []
    ensures ActiveSources(cs) == Own(cs[0].value) + ActiveSources(cs[1..])
  {
    if |cs| > 1 {
      ActiveSourcesFront(cs[..|cs| - 1]);
      assert cs[..|cs| - 1][1..] == cs[1..][..|cs| - 2];
    }
  }

  lemma DistinctParts<T>(a: seq<T>, b: seq<T>)
    ensures Distinct(a + b) <==> Distinct(a) && Distinct(b) && forall x :: x in a ==> x !in b
  {
    var s := a + b;
    assert forall i :: 0 <= i < |a| ==> s[i] == a[i];
    assert forall i {:trigger b[i]} :: 0 <= i < |b| ==> s[|a| + i] == b[i];
    if Distinct(s) {
      forall x | x in a
        ensures x !in b
      {
        var i :| 0 <= i < |a| && a[i] == x;
        forall j | 0 <= j < |b|
          ensures b[j] != x
        {
          assert s[i] != s[|a| + j];
        }
      }
      forall i, j | 0 <= i < j < |b|
        ensures b[i] != b[j]
      {
        assert s[|a| + i] != s[|a| + j];
      }
    } else {
      var i, j :| 0 <= i < j < |s| && s[i] == s[j];
      if i < |a| <= j {
        assert a[i] in a && b[j - |a|] in b;
      } else if |a| <= i {
        assert b[i - |a|] == b[j - |a|];
      } else {
        assert a[i] == a[j];
      }
    }
  }

  // Every flow of a VM has its own source.
  lemma {:induction false} VmFlowsDistinct(cs: seq<Entry<Controller>>, vm: Vm)
    requires Distinct(ActiveSources(cs))
    ensures Distinct(VmFlows(ControllersForVm(cs, vm), vm.address))
    ensures forall f :: f in VmFlows(ControllersForVm(cs, vm), vm.address) ==>
              f.1 == vm.address && f.0 in ActiveSources(cs)
  {
    if cs != [] {
      ActiveSourcesFront(cs);
      DistinctParts(Own(cs[0].value), ActiveSources(cs[1..]));
      VmFlowsDistinct(cs[1..], vm);
      if Permitted(vm, cs[0].value) {
        DistinctParts(SourceFlows(cs[0].value.sources, vm.address),
                      VmFlows(ControllersForVm(cs[1..], vm), vm.address));
      }
    }
  }

  lemma {:induction false} ElementsDistinct(vms: seq<Entry<Vm>>, cs: seq<Entry<Controller>>)
    requires Distinct(ActiveSources(cs)) && DistinctAddresses(vms)
    ensures Distinct(Elements(vms, cs))
    ensures forall f :: f in Elements(vms, cs) ==> exists i :: 0 <= i < |vms| && vms[i].value.address == f.1
  {
    if vms != [] {
      ElementsDistinct(vms[1..], cs);
      VmFlowsDistinct(cs, vms[0].value);
      DistinctParts(VmFlows(ControllersForVm(cs, vms[0].value), vms[0].value.address), Elements(vms[1..], cs));
      assert forall i :: 0 <= i < |vms| - 1 ==> vms[1..][i] == vms[i + 1];
    }
  }

  // An active source has one owner.
  lemma {:induction false} SourceOwner(cs: seq<Entry<Controller>>, a: Entry<Controller>, b: Entry<Controller>, s: Ipv4)
    requires Distinct(ActiveSources(cs)) && a in cs && b in cs
    requires a.value.active && b.value.active && s in a.value.sources && s in b.value.sources
    ensures a == b
  {
    ActiveSourcesFront(cs);
    DistinctParts(Own(cs[0].value), ActiveSources(cs[1..]));
    if a != cs[0] && b != cs[0] {
      SourceOwner(cs[1..], a, b, s);
    } else if a != b {
      OwnedIsActive(cs[1..], if a == cs[0] then b else a, s);
      assert false;
    }
  }

  lemma {:induction false} OwnedIsActive(cs: seq<Entry<Controller>>, k: Entry<Controller>, s: Ipv4)
    requires k in cs && k.value.active && s in k.value.sources
    ensures s in ActiveSources(cs)
  {
    ActiveSourcesFront(cs);
    if k != cs[0] {
      OwnedIsActive(cs[1..], k, s);
    }
  }

  // The compiled set of a valid configuration: no pair twice, and each pair names one VM and one
  // active controller.
  lemma FlowProvenance(c: Config)
    requires WellFormed(c)
    ensures Distinct(Elements(c.vms, c.controllers))
    ensures forall f :: f in Elements(c.vms, c.controllers) ==>
              exists v, k :: v in c.vms && k in c.controllers && Grants(v.value, k.value, f.0, f.1)
    ensures forall src, dst, v, w, k, l ::
              (&& v in c.vms && w in c.vms && k in c.controllers && l in c.controllers
               && Grants(v.value, k.value, src, dst) && Grants(w.value, l.value, src, dst)) ==> v == w && k == l
  {
    ElementsDistinct(c.vms, c.controllers);
    forall f | f in Elements(c.vms, c.controllers)
      ensures exists v, k :: v in c.vms && k in c.controllers && Grants(v.value, k.value, f.0, f.1)
    {
      ElementsMembers(c.vms, c.controllers, f);
    }
    forall src, dst, v, w, k, l |
      && v in c.vms && w in c.vms && k in c.controllers && l in c.controllers
      && Grants(v.value, k.value, src, dst) && Grants(w.value, l.value, src, dst)
      ensures v == w && k == l
    {
      SourceOwner(c.controllers, k, l, src);
    }
  }

  function SourceCount(ks: seq<Controller>): nat {
    if ks == [] then 0 else |ks[0].sources| + SourceCount(ks[1..])
  }

  function FlowCount(vms: seq<Entry<Vm>>, cs: seq<Entry<Controller>>): nat {
    if vms == [] then 0 else SourceCount(ControllersForVm(cs, vms[0].value)) + FlowCount(vms[1..], cs)
  }

  lemma {:induction false} VmFlowsLength(ks: seq<Controller>, guest: Ipv4)
    ensures |VmFlows(ks, guest)| == SourceCount(ks)
  {
    if ks != [] {
      VmFlowsLength(ks[1..], guest);
    }
  }

  // The list is as long as the permitted active controllers' sources, counted per VM.
  lemma {:induction false} ElementsLength(vms: seq<Entry<Vm>>, cs: seq<Entry<Controller>>)
    ensures |Elements(vms, cs)| == FlowCount(vms, cs)
  {
    if vms != [] {
      VmFlowsLength(ControllersForVm(cs, vms[0].value), vms[0].value.address);
      ElementsLength(vms[1..], cs);
    }
  }

  // Address policy and key policy cannot drift: an active controller contributes a flow to a VM iff it
  // is among the controllers whose keys go into that VM's bundle.
  lemma NoDrift(c: Config, v: Entry<Vm>, k: Entry<Controller>)
    requires WellFormed(c) && v in c.vms && k in c.controllers && k.value.active
    ensures (exists s :: s in k.value.sources && (s, v.value.address) in Elements(c.vms, c.controllers))
            <==> k.value in ControllersForVm(c.controllers, v.value)
  {
    if s :| s in k.value.sources && (s, v.value.address) in Elements(c.vms, c.controllers) {
      FlowMeansPermitted(c, v, k, s);
    }
    if k.value in ControllersForVm(c.controllers, v.value) {
      assert ControllerOk(k);
      var s := k.value.sources[0];
      assert Grants(v.value, k.value, s, v.value.address);
      ElementsMembers(c.vms, c.controllers, (s, v.value.address));
    }
  }

  lemma FlowMeansPermitted(c: Config, v: Entry<Vm>, k: Entry<Controller>, s: Ipv4)
    requires WellFormed(c) && v in c.vms && k in c.controllers && k.value.active && s in k.value.sources
    requires (s, v.value.address) in Elements(c.vms, c.controllers)
    ensures k.value in ControllersForVm(c.controllers, v.value)
  {
    ElementsMembers(c.vms, c.controllers, (s, v.value.address));
    var w, l :| w in c.vms && l in c.controllers && Grants(w.value, l.value, s, v.value.address);
    SourceOwner(c.controllers, k, l, s);
    assert w == v;
  }

  /* ---- editing the configuration ---- */

  function Deactivated(cs: seq<Entry<Controller>>, i: nat): (r: seq<Entry<Controller>>)
    requires i < |cs|
  {
    cs[i := Entry(cs[i].key, cs[i].value.(active := false))]
  }

  // The flows whose source is not in the list, in order.
  function Without(flows: seq<Flow>, sources: seq<Ipv4>): seq<Flow> {
    if flows == [] then []
    else (if flows[0].0 in sources then [] else [flows[0]]) + Without(flows[1..], sources)
  }

  lemma {:induction false} WithoutConcat(a: seq<Flow>, b: seq<Flow>, sources: seq<Ipv4>)
    ensures Without(a + b, sources) == Without(a, sources) + Without(b, sources)
  {
    if a == [] {
      assert a + b == b;
    } else {
      WithoutConcat(a[1..], b, sources);
      assert a == [a[0]] + a[1..] && a + b == [a[0]] + (a[1..] + b);
      WithoutCons(a[0], a[1..], sources);
      WithoutCons(a[0], a[1..] + b, sources);
    }
  }

  lemma WithoutCons(f: Flow, rest: seq<Flow>, sources: seq<Ipv4>)
    ensures Without([f] + rest, sources) == (if f.0 in sources then [] else [f]) + Without(rest, sources)
  {
    assert ([f] + rest)[1..] == rest;
  }

  lemma {:induction false} WithoutUnrelated(flows: seq<Flow>, sources: seq<Ipv4>)
    requires forall f :: f in flows ==> f.0 !in sources
    ensures Without(flows, sources) == flows
  {
    if flows != [] {
      assert flows[0] in flows;
      assert forall f :: f in flows[1..] ==> f in flows;
      WithoutUnrelated(flows[1..], sources);
    }
  }

  lemma {:induction false} WithoutOwn(flows: seq<Flow>, sources: seq<Ipv4>)
    requires forall f :: f in flows ==> f.0 in sources
    ensures Without(flows, sources) == []
  {
    if flows != [] {
      assert flows[0] in flows;
      assert forall f :: f in flows[1..] ==> f in flows;
      WithoutOwn(flows[1..], sources);
    }
  }

  lemma {:induction false} DeactivatedSources(cs: seq<Entry<Controller>>, i: nat)
    requires i < |cs| && Distinct(ActiveSources(cs))
    ensures Distinct(ActiveSources(Deactivated(cs, i)))
    ensures forall s :: s in ActiveSources(Deactivated(cs, i)) ==> s in ActiveSources(cs)
  {
    var d := Deactivated(cs, i);
    ActiveSourcesFront(cs);
    ActiveSourcesFront(d);
    DistinctParts(Own(cs[0].value), ActiveSources(cs[1..]));
    if i > 0 {
      assert d[1..] == Deactivated(cs[1..], i - 1);
      DeactivatedSources(cs[1..], i - 1);
      DistinctParts(Own(d[0].value), ActiveSources(d[1..]));
    } else {
      assert d[1..] == cs[1..];
      assert [] + ActiveSources(cs[1..]) == ActiveSources(cs[1..]);
    }
  }

  lemma {:induction false} DeactivatedVmFlows(cs: seq<Entry<Controller>>, i: nat, vm: Vm)
    requires i < |cs| && Distinct(ActiveSources(cs)) && cs[i].value.active
    ensures VmFlows(ControllersForVm(Deactivated(cs, i), vm), vm.address)
            == Without(VmFlows(ControllersForVm(cs, vm), vm.address), cs[i].value.sources)
  {
    var d, gone := Deactivated(cs, i), cs[i].value.sources;
    ActiveSourcesFront(cs);
    DistinctParts(Own(cs[0].value), ActiveSources(cs[1..]));
    VmFlowsDistinct(cs[1..], vm);
    var head := SourceFlows(cs[0].value.sources, vm.address);
    var rest := VmFlows(ControllersForVm(cs[1..], vm), vm.address);
    WithoutConcat(head, rest, gone);
    if i == 0 {
      assert d[1..] == cs[1..];
      WithoutOwn(head, gone);
      WithoutUnrelated(rest, gone);
    } else {
      assert d[1..] == Deactivated(cs[1..], i - 1);
      DeactivatedVmFlows(cs[1..], i - 1, vm);
      if Permitted(vm, cs[0].value) {
        forall f | f in head
          ensures f.0 !in gone
        {
          if f.0 in gone {
            OwnedIsActive(cs[1..], cs[i], f.0);
          }
        }
        WithoutUnrelated(head, gone);
      }
    }
  }

  lemma {:induction false} DeactivatedElements(vms: seq<Entry<Vm>>, cs: seq<Entry<Controller>>, i: nat)
    requires i < |cs| && Distinct(ActiveSources(cs)) && cs[i].value.active
    ensures Elements(vms, Deactivated(cs, i)) == Without(Elements(vms, cs), cs[i].value.sources)
  {
    if vms != [] {
      DeactivatedVmFlows(cs, i, vms[0].value);
      DeactivatedElements(vms[1..], cs, i);
      WithoutConcat(VmFlows(ControllersForVm(cs, vms[0].value), vms[0].value.address), Elements(vms[1..], cs),
                    cs[i].value.sources);
    }
  }

  function Deactivate(c: Config, i: nat): (d: Config)
    requires i < |c.controllers|
    ensures d.vms == c.vms && d.controllers == Deactivated(c.controllers, i)
    ensures d.router == c.router && d.network == c.network && d.storage == c.storage
  {
    c.(controllers := Deactivated(c.controllers, i))
  }

  lemma DeactivatedEntries(cs: seq<Entry<Controller>>, i: nat)
    requires i < |cs| && forall k :: k in cs ==> ControllerOk(k)
    ensures Keys(Deactivated(cs, i)) == Keys(cs)
    ensures forall k :: k in Deactivated(cs, i) ==> ControllerOk(k)
  {
    var d := Deactivated(cs, i);
    forall j | 0 <= j < |d|
      ensures d[j].key == cs[j].key && ControllerOk(d[j])
    {
      assert cs[j] in cs;
    }
    forall key | key in Keys(cs)
      ensures key in Keys(d)
    {
      var j :| 0 <= j < |d| && cs[j].key == key;
      assert d[j] in d;
    }
  }

  // Revoking a controller keeps the configuration valid and removes exactly its flows, in order.
  lemma Deactivation(c: Config, i: nat)
    requires WellFormed(c) && i < |c.controllers| && c.controllers[i].value.active
    ensures WellFormed(Deactivate(c, i))
    ensures var d := Deactivate(c, i);
            Elements(d.vms, d.controllers) == Without(Elements(c.vms, c.controllers), c.controllers[i].value.sources)
  {
    DeactivatedSources(c.controllers, i);
    DeactivatedElements(c.vms, c.controllers, i);
    DeactivatedEntries(c.controllers, i);
  }

  // Narrowing a nonempty controller list of one VM to a nonempty sublist only removes flows; emptying
  // it grants every active controller instead.
  lemma NarrowingFlows(vms: seq<Entry<Vm>>, cs: seq<Entry<Controller>>, i: nat, names: seq<string>)
    requires i < |vms| && names != [] && forall n :: n in names ==> n in vms[i].value.controllers
    ensures forall f :: f in Elements(Relisted(vms, i, names), cs) ==> f in Elements(vms, cs)
    ensures forall f :: f in Elements(vms, cs) ==> f in Elements(Relisted(vms, i, []), cs)
  {
    forall f | f in Elements(Relisted(vms, i, names), cs)
      ensures f in Elements(vms, cs)
    {
      var narrowed := Relisted(vms, i, names);
      ElementsMembers(narrowed, cs, f);
      ElementsMembers(vms, cs, f);
      var v, k :| v in narrowed && k in cs && Grants(v.value, k.value, f.0, f.1);
      if v !in vms {
        assert v == narrowed[i];
        assert vms[i] in vms && Grants(vms[i].value, k.value, f.0, f.1);
      }
    }
    forall f | f in Elements(vms, cs)
      ensures f in Elements(Relisted(vms, i, []), cs)
    {
      var open := Relisted(vms, i, []);
      ElementsMembers(vms, cs, f);
      ElementsMembers(open, cs, f);
      var v, k :| v in vms && k in cs && Grants(v.value, k.value, f.0, f.1);
      var j :| 0 <= j < |vms| && vms[j] == v;
      assert open[j] in open && Grants(open[j].value, k.value, f.0, f.1);
    }
  }

  function Relisted(vms: seq<Entry<Vm>>, i: nat, names: seq<string>): seq<Entry<Vm>>
    requires i < |vms|
  {
    vms[i := Entry(vms[i].key, vms[i].value.(controllers := names))]
  }
}
