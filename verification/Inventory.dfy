/** Selecting VMs by name, by label intersection, or all of them, in inventory order. */
module Inventory {
  import opened Wrappers
  import opened Text
  import opened Config

  datatype Selector = Selector(name: Option<string>, all: bool, labels: seq<string>)

  datatype SelectorError = Ambiguous | UnknownVm(name: string) | Empty

  predicate Matches(selector: Selector, vm: Vm) {
    selector.all || forall l :: l in selector.labels ==> l in vm.labels
  }

  function Filtered(vms: seq<Entry<Vm>>, selector: Selector): seq<Vm> {
    if vms == [] then []
    else if Matches(selector, vms[0].value) then [vms[0].value] + Filtered(vms[1..], selector)
    else Filtered(vms[1..], selector)
  }

  function Modes(selector: Selector): nat {
    (if selector.name.Some? then 1 else 0) + (if selector.all then 1 else 0) + (if selector.labels != [] then 1 else 0)
  }

  function Select(c: Config, selector: Selector): Result<seq<Vm>, SelectorError> {
    if Modes(selector) != 1 then Err(Ambiguous)
    else if selector.name.Some? then
      match Lookup(c.vms, selector.name.value)
      case Some(vm) => Ok([vm])
      case None => Err(UnknownVm(selector.name.value))
    else
      var selected := Filtered(c.vms, selector);
      if selected == [] then Err(Empty) else Ok(selected)
  }

  // What `bulk::execute` needs from a selection: it is nonempty, names are in strictly ascending order
  // (so no VM is selected twice), and membership is exactly what the selector asks for.
  lemma SelectionIsInventoryOrder(c: Config, selector: Selector)
    requires WellFormed(c) && Select(c, selector).Ok?
    ensures var vms := Select(c, selector).value;
            && vms != []
            && (forall i, j :: 0 <= i < j < |vms| ==> Before(vms[i].name, vms[j].name))
            && (forall i, j :: 0 <= i < j < |vms| ==> vms[i].name != vms[j].name)
            && forall e :: e in c.vms ==>
                 (e.value in vms <==> if selector.name.Some? then e.key == selector.name.value
                                      else Matches(selector, e.value))
    ensures forall vm :: vm in Select(c, selector).value ==> Entry(vm.name, vm) in c.vms
  {
    FilteredOrder(c, c.vms, selector);
    KeysDistinct(c.vms);
    var vms := Select(c, selector).value;
    if selector.name.Some? {
      assert Entry(selector.name.value, vms[0]) in c.vms;
    }
    forall i, j | 0 <= i < j < |vms|
      ensures vms[i].name != vms[j].name
    {
      BeforeIrreflexive(vms[i].name);
    }
  }

  // A selection fails exactly when not one mode was chosen, the name is unknown, or nothing matches.
  lemma SelectionFailsIff(c: Config, selector: Selector)
    requires WellFormed(c)
    ensures Select(c, selector) == Err(Ambiguous) <==>
            !((selector.name.Some? && !selector.all && selector.labels == [])
              || (selector.name.None? && (selector.all <==> selector.labels == [])))
    ensures forall n :: Select(c, selector) == Err(UnknownVm(n)) <==>
                        && selector == Selector(Some(n), false, [])
                        && forall e :: e in c.vms ==> e.key != n
    ensures Select(c, selector) == Err(Empty) <==>
            && selector.name.None? && !selector.all && selector.labels != []
            && forall e :: e in c.vms ==> exists l :: l in selector.labels && l !in e.value.labels
  {
    FilteredOrder(c, c.vms, selector);
    if selector.name.Some? {
      UnknownIff(c, selector.name.value);
    } else {
      EmptyIff(c, selector);
    }
  }

  lemma UnknownIff(c: Config, name: string)
    ensures Lookup(c.vms, name).None? <==> forall e :: e in c.vms ==> e.key != name
  {
    if name in Keys(c.vms) {
      var e :| e in c.vms && e.key == name;
    }
  }

  lemma EmptyIff(c: Config, selector: Selector)
    requires WellFormed(c)
    ensures Filtered(c.vms, selector) == [] <==> forall e :: e in c.vms ==> !Matches(selector, e.value)
  {
    FilteredOrder(c, c.vms, selector);
    forall e | e in c.vms && Matches(selector, e.value)
      ensures e.value in Filtered(c.vms, selector)
    {
      assert Entry(e.value.name, e.value) == e;
    }
    if Filtered(c.vms, selector) != [] {
      var vm := Filtered(c.vms, selector)[0];
      assert vm in Filtered(c.vms, selector);
    }
  }

  lemma {:induction false} FilteredOrder(c: Config, vms: seq<Entry<Vm>>, selector: Selector)
    requires Ascending(vms)
    requires forall e :: e in vms ==> e in c.vms && e.value.name == e.key
    ensures var r := Filtered(vms, selector);
            && (forall i, j :: 0 <= i < j < |r| ==> Before(r[i].name, r[j].name))
            && (forall vm :: vm in r <==> Matches(selector, vm) && Entry(vm.name, vm) in vms)
  {
    if vms != [] {
      assert forall e :: e in vms[1..] ==> e in vms;
      FilteredOrder(c, vms[1..], selector);
      var rest := Filtered(vms[1..], selector);
      forall vm | vm in rest
        ensures Before(vms[0].key, vm.name)
      {
        var k :| 0 <= k < |vms[1..]| && vms[1..][k] == Entry(vm.name, vm);
        assert vms[k + 1].key == vm.name;
      }
      assert forall e :: e in vms <==> e == vms[0] || e in vms[1..];
      assert vms[0] in vms;
    }
  }
}
