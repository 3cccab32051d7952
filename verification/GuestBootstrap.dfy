/** The ADB key bundle of one VM: one line per distinct key of the permitted active controllers. */
module GuestBootstrap {
  import opened Wrappers
  import opened Text
  import opened Config
  import opened Adb
  import Policy
  import F = Firewall

  datatype BootstrapError = ReadKey(path: string) | InvalidKey(path: string, source: AdbKeyError)

  // The files that can be read, by path.
  type Files = map<string, string>

  // Reading and parsing one key file.
  type Loader = string -> Result<AdbPublicKey, BootstrapError>

  // How the content of one file becomes a key.
  type Parser = string -> Result<AdbPublicKey, AdbKeyError>

  function KeyParser(sha: Digest): Parser { contents => Parse(sha, contents) }

  function FileLoader(parse: Parser, files: Files): Loader {
    path =>
      if path !in files then Err(ReadKey(path))
      else match parse(files[path])
        case Err(e) => Err(InvalidKey(path, e))
        case Ok(key) => Ok(key)
  }

  predicate AllLoad(load: Loader, ks: seq<Controller>) {
    forall i :: 0 <= i < |ks| ==> load(ks[i].keyFile).Ok?
  }

  function LoadedKeys(load: Loader, ks: seq<Controller>): (keys: seq<AdbPublicKey>)
    requires AllLoad(load, ks)
    ensures |keys| == |ks| && forall i :: 0 <= i < |ks| ==> load(ks[i].keyFile) == Ok(keys[i])
  {
    seq(|ks|, i requires 0 <= i < |ks| => load(ks[i].keyFile).value)
  }

  function Fingerprints(keys: seq<AdbPublicKey>): set<string> {
    set k | k in keys :: k.fingerprint
  }

  // The first key of each fingerprint, in order.
  function FirstOfEach(keys: seq<AdbPublicKey>): seq<AdbPublicKey> {
    if keys == [] then []
    else
      var front, last := keys[..|keys| - 1], keys[|keys| - 1];
      FirstOfEach(front) + if last.fingerprint in Fingerprints(front) then [] else [last]
  }

  function Lines(keys: seq<AdbPublicKey>): seq<string> {
    seq(|keys|, i requires 0 <= i < |keys| => AuthorizedLine(keys[i]))
  }

  function Render(lines: seq<string>): string {
    if lines == [] then "" else Join(lines, '\n') + "\n"
  }

  lemma FingerprintsSnoc(keys: seq<AdbPublicKey>, key: AdbPublicKey)
    ensures Fingerprints(keys + [key]) == Fingerprints(keys) + {key.fingerprint}
  {
    var all := keys + [key];
    assert forall k :: k in all <==> k in keys || k == key;
    assert key in all;
  }

  lemma FirstOfEachSnoc(keys: seq<AdbPublicKey>, key: AdbPublicKey)
    ensures FirstOfEach(keys + [key]) == FirstOfEach(keys) + if key.fingerprint in Fingerprints(keys) then [] else [key]
  {
    assert (keys + [key])[..|keys|] == keys;
  }

  lemma LinesSnoc(keys: seq<AdbPublicKey>, key: AdbPublicKey)
    ensures Lines(FirstOfEach(keys + [key]))
            == Lines(FirstOfEach(keys)) + if key.fingerprint in Fingerprints(keys) then [] else [AuthorizedLine(key)]
  {
    FirstOfEachSnoc(keys, key);
    assert FirstOfEach(keys) + [] == FirstOfEach(keys);
    assert Lines(FirstOfEach(keys) + [key]) == Lines(FirstOfEach(keys)) + [AuthorizedLine(key)];
  }

  lemma LoadedSnoc(load: Loader, ks: seq<Controller>, k: Controller)
    requires AllLoad(load, ks) && load(k.keyFile).Ok?
    ensures AllLoad(load, ks + [k])
    ensures LoadedKeys(load, ks + [k]) == LoadedKeys(load, ks) + [load(k.keyFile).value]
  {
  }

  method AdbAuthorizedKeys(c: Config, vm: Vm, load: Loader) returns (r: Result<string, BootstrapError>)
    ensures r.Ok? <==> AllLoad(load, ControllersForVm(c.controllers, vm))
    ensures r.Ok? ==>
              r.value == Render(Lines(FirstOfEach(LoadedKeys(load, ControllersForVm(c.controllers, vm)))))
    // An error is that of the first key file that fails.
    ensures r.Err? ==> exists i :: FirstFailure(load, ControllersForVm(c.controllers, vm), i, r.error)
  {
    var permitted := ControllersForVm(c.controllers, vm);
    var fingerprints: set<string> := {};
    var lines: seq<string> := [];
    ghost var keys: seq<AdbPublicKey> := [];
    for i := 0 to |permitted|
      invariant AllLoad(load, permitted[..i]) && keys == LoadedKeys(load, permitted[..i])
      invariant fingerprints == Fingerprints(keys)
      invariant lines == Lines(FirstOfEach(keys))
    {
      var path := permitted[i].keyFile;
      var loaded := load(path);
      if loaded.Err? {
        assert forall k :: 0 <= k < i ==> permitted[..i][k] == permitted[k];
        assert FirstFailure(load, permitted, i, loaded.error);
        return Err(loaded.error);
      }
      var key := loaded.value;
      assert permitted[..i + 1] == permitted[..i] + [permitted[i]];
      LoadedSnoc(load, permitted[..i], permitted[i]);
      FingerprintsSnoc(keys, key);
      LinesSnoc(keys, key);
      keys := keys + [key];
      if key.fingerprint !in fingerprints {
        fingerprints := fingerprints + {key.fingerprint};
        lines := lines + [AuthorizedLine(key)];
      }
    }
    assert permitted[..|permitted|] == permitted;
    r := Ok(if lines == [] then "" else Join(lines, '\n') + "\n");
  }

  predicate FirstFailure(load: Loader, ks: seq<Controller>, i: nat, e: BootstrapError) {
    && i < |ks| && load(ks[i].keyFile) == Err(e)
    && forall k :: 0 <= k < i ==> load(ks[k].keyFile).Ok?
  }

  /* ---- what a reader of the bundle gets ---- */

  // The nonempty-terminated lines of a text: the last part after the final newline is empty.
  function TextLines(s: string): seq<string> {
    var parts := Split(s, '\n');
    if parts[|parts| - 1] == "" then parts[..|parts| - 1] else parts
  }

  predicate IsFirst(keys: seq<AdbPublicKey>, i: nat)
    requires i < |keys|
  {
    forall j :: 0 <= j < i ==> keys[j].fingerprint != keys[i].fingerprint
  }

  // `at` lists, in ascending order, exactly the positions whose fingerprint did not occur before.
  ghost predicate Selects(at: seq<nat>, keys: seq<AdbPublicKey>, kept: seq<AdbPublicKey>) {
    && |at| == |kept|
    && (forall k :: 0 <= k < |at| ==> at[k] < |keys| && keys[at[k]] == kept[k] && IsFirst(keys, at[k]))
    && (forall k, l :: 0 <= k < l < |at| ==> at[k] < at[l])
    && (forall i :: 0 <= i < |keys| && IsFirst(keys, i) ==> i in at)
  }

  lemma {:induction false} FirstOfEachSelects(keys: seq<AdbPublicKey>)
    ensures exists at: seq<nat> :: Selects(at, keys, FirstOfEach(keys))
  {
    if keys == [] {
      var none: seq<nat> := [];
      assert Selects(none, keys, FirstOfEach(keys));
    } else {
      var front, last := keys[..|keys| - 1], keys[|keys| - 1];
      FirstOfEachSelects(front);
      var at: seq<nat> :| Selects(at, front, FirstOfEach(front));
      assert front + [last] == keys;
      FirstOfEachSnoc(front, last);
      if last.fingerprint in Fingerprints(front) {
        assert FirstOfEach(front) + [] == FirstOfEach(front);
        SelectsRepeated(at, front, FirstOfEach(front), last);
      } else {
        SelectsNew(at, front, FirstOfEach(front), last);
      }
    }
  }

  lemma FirstIsStable(keys: seq<AdbPublicKey>, last: AdbPublicKey)
    ensures forall i :: 0 <= i < |keys| ==> (IsFirst(keys + [last], i) <==> IsFirst(keys, i))
  {
    var all := keys + [last];
    assert forall j {:trigger keys[j]} {:trigger all[j]} :: 0 <= j < |keys| ==> all[j] == keys[j];
  }

  lemma SelectsRepeated(at: seq<nat>, keys: seq<AdbPublicKey>, kept: seq<AdbPublicKey>, last: AdbPublicKey)
    requires Selects(at, keys, kept) && last.fingerprint in Fingerprints(keys)
    ensures Selects(at, keys + [last], kept)
  {
    FirstIsStable(keys, last);
    var k :| k in keys && k.fingerprint == last.fingerprint;
    var j :| 0 <= j < |keys| && keys[j] == k;
    assert (keys + [last])[j] == k;
    assert !IsFirst(keys + [last], |keys|);
  }

  lemma SelectsNew(at: seq<nat>, keys: seq<AdbPublicKey>, kept: seq<AdbPublicKey>, last: AdbPublicKey)
    requires Selects(at, keys, kept) && last.fingerprint !in Fingerprints(keys)
    ensures Selects(at + [|keys|], keys + [last], kept + [last])
  {
    FirstIsStable(keys, last);
    assert forall j :: 0 <= j < |keys| ==> keys[j] in keys;
    assert IsFirst(keys + [last], |keys|);
  }

  lemma {:induction false} FirstOfEachFingerprints(keys: seq<AdbPublicKey>)
    ensures Fingerprints(FirstOfEach(keys)) == Fingerprints(keys)
  {
    if keys != [] {
      var front, last := keys[..|keys| - 1], keys[|keys| - 1];
      FirstOfEachFingerprints(front);
      FingerprintsSnoc(front, last);
      FingerprintsSnoc(FirstOfEach(front), last);
      assert front + [last] == keys && FirstOfEach(front) + [] == FirstOfEach(front);
    }
  }

  lemma KeptAreDistinct(keys: seq<AdbPublicKey>)
    ensures forall i, j :: 0 <= i < j < |FirstOfEach(keys)| ==>
              FirstOfEach(keys)[i].fingerprint != FirstOfEach(keys)[j].fingerprint
  {
    FirstOfEachSelects(keys);
    var at: seq<nat> :| Selects(at, keys, FirstOfEach(keys));
  }

  lemma {:induction false} RenderedLines(lines: seq<string>)
    requires forall l :: l in lines ==> '\n' !in l
    ensures TextLines(Render(lines)) == lines
  {
    if lines == [] {
      assert Split("", '\n') == [""];
    } else {
      var all := lines + [""];
      JoinSnoc(lines);
      SplitJoin(all, '\n');
      assert all[..|all| - 1] == lines;
    }
  }

  lemma {:induction false} JoinSnoc(lines: seq<string>)
    requires lines != []
    ensures Join(lines + [""], '\n') == Join(lines, '\n') + "\n"
  {
    var all := lines + [""];
    if |lines| == 1 {
      assert all[1..] == [""];
    } else {
      JoinSnoc(lines[1..]);
      assert all[1..] == lines[1..] + [""];
    }
  }

  // What a parser gets from the printed line of a key it produced is that key, and the line is one line.
  ghost predicate PrintsBack(parse: Parser, key: AdbPublicKey) {
    parse(AuthorizedLine(key)) == Ok(key) && '\n' !in AuthorizedLine(key)
  }

  // Reading the rendered bundle line by line gives back the kept keys.
  ghost predicate ReadsBack(parse: Parser, keys: seq<AdbPublicKey>) {
    var kept, lines := FirstOfEach(keys), TextLines(Render(Lines(FirstOfEach(keys))));
    && |lines| == |kept|
    && (forall i :: 0 <= i < |lines| ==> parse(lines[i]) == Ok(kept[i]))
    && (exists at: seq<nat> :: Selects(at, keys, kept))
    && (forall i, j :: 0 <= i < j < |kept| ==> kept[i].fingerprint != kept[j].fingerprint)
    && Fingerprints(kept) == Fingerprints(keys)
  }

  lemma PrintedKeysReadBack(parse: Parser, keys: seq<AdbPublicKey>)
    requires forall k :: k in keys ==> PrintsBack(parse, k)
    ensures ReadsBack(parse, keys)
  {
    var kept := FirstOfEach(keys);
    FirstOfEachSelects(keys);
    KeptAreDistinct(keys);
    FirstOfEachFingerprints(keys);
    var at: seq<nat> :| Selects(at, keys, kept);
    assert forall i :: 0 <= i < |kept| ==> keys[at[i]] in keys && PrintsBack(parse, kept[i]);
    RenderedLines(Lines(kept));
  }

  // Splitting the bundle into lines and parsing each one gives back exactly the permitted controllers'
  // keys: in controller order, the first of each fingerprint, none twice, none lost.
  lemma BundleParses(sha: Digest, files: Files, ks: seq<Controller>)
    requires AllLoad(FileLoader(KeyParser(sha), files), ks)
    ensures ReadsBack(KeyParser(sha), LoadedKeys(FileLoader(KeyParser(sha), files), ks))
  {
    var load := FileLoader(KeyParser(sha), files);
    var keys := LoadedKeys(load, ks);
    forall k | k in keys
      ensures PrintsBack(KeyParser(sha), k)
    {
      var i :| 0 <= i < |keys| && keys[i] == k;
      LoadedLine(sha, files, ks[i].keyFile);
    }
    PrintedKeysReadBack(KeyParser(sha), keys);
  }

  lemma LoadedLine(sha: Digest, files: Files, path: string)
    requires FileLoader(KeyParser(sha), files)(path).Ok?
    ensures PrintsBack(KeyParser(sha), FileLoader(KeyParser(sha), files)(path).value)
  {
    RoundTrip(sha, files[path]);
    LinePasses(sha, files[path]);
  }

  // Deactivating entry i keeps exactly the other permitted controllers.
  lemma DeactivatedPermitted(cs: seq<Entry<Controller>>, i: nat, vm: Vm, k: Controller)
    requires i < |cs|
    ensures k in ControllersForVm(Policy.Deactivated(cs, i), vm) <==>
            exists j :: 0 <= j < |cs| && j != i && cs[j].value == k
                        && k.active && (vm.controllers == [] || k.name in vm.controllers)
  {
    var d := Policy.Deactivated(cs, i);
    if k in ControllersForVm(d, vm) {
      var e :| e in d && e.value == k;
      var j :| 0 <= j < |d| && d[j] == e;
      assert j != i;
    }
    if j :| && 0 <= j < |cs| && j != i && cs[j].value == k
            && k.active && (vm.controllers == [] || k.name in vm.controllers) {
      assert d[j] in d;
    }
  }

  predicate Brings(load: Loader, k: Controller, fingerprint: string) {
    load(k.keyFile).Ok? && load(k.keyFile).value.fingerprint == fingerprint
  }

  lemma BundleFingerprints(load: Loader, ks: seq<Controller>, fingerprint: string)
    requires AllLoad(load, ks)
    ensures fingerprint in Fingerprints(FirstOfEach(LoadedKeys(load, ks))) <==>
            exists k :: k in ks && Brings(load, k, fingerprint)
  {
    var keys := LoadedKeys(load, ks);
    FirstOfEachFingerprints(keys);
    if fingerprint in Fingerprints(keys) {
      var n :| 0 <= n < |keys| && keys[n].fingerprint == fingerprint;
      assert ks[n] in ks && Brings(load, ks[n], fingerprint);
    }
    if k :| k in ks && Brings(load, k, fingerprint) {
      var n :| 0 <= n < |ks| && ks[n] == k;
      assert keys[n] in keys;
    }
  }

  // After a controller is deactivated, a fingerprint is in the bundle iff another active permitted
  // controller brings it.
  lemma DeactivatedBundle(load: Loader, cs: seq<Entry<Controller>>, i: nat, vm: Vm, fingerprint: string)
    requires i < |cs| && AllLoad(load, ControllersForVm(Policy.Deactivated(cs, i), vm))
    ensures var keys := LoadedKeys(load, ControllersForVm(Policy.Deactivated(cs, i), vm));
            fingerprint in Fingerprints(FirstOfEach(keys)) <==>
            exists j :: 0 <= j < |cs| && j != i && cs[j].value.active
                        && (vm.controllers == [] || cs[j].value.name in vm.controllers)
                        && Brings(load, cs[j].value, fingerprint)
  {
    var after := ControllersForVm(Policy.Deactivated(cs, i), vm);
    BundleFingerprints(load, after, fingerprint);
    if k :| k in after && Brings(load, k, fingerprint) {
      DeactivatedPermitted(cs, i, vm, k);
    }
    if j :| && 0 <= j < |cs| && j != i && cs[j].value.active
            && (vm.controllers == [] || cs[j].value.name in vm.controllers) && Brings(load, cs[j].value, fingerprint) {
      DeactivatedPermitted(cs, i, vm, cs[j].value);
    }
  }

  // A fingerprint is in a VM's bundle iff some active controller brings it, and the VM's list names that
  // controller or is empty.
  lemma BundleIff(load: Loader, cs: seq<Entry<Controller>>, vm: Vm, fingerprint: string)
    requires AllLoad(load, ControllersForVm(cs, vm))
    ensures fingerprint in Fingerprints(FirstOfEach(LoadedKeys(load, ControllersForVm(cs, vm)))) <==>
            exists e :: e in cs && e.value.active && (vm.controllers == [] || e.value.name in vm.controllers)
                        && Brings(load, e.value, fingerprint)
  {
    var ks := ControllersForVm(cs, vm);
    BundleFingerprints(load, ks, fingerprint);
    if k :| k in ks && Brings(load, k, fingerprint) {
      var e :| e in cs && e.value == k;
    }
  }

  // A VM that names its controllers gets nothing from any other: no flow, no accepted new packet and no
  // key in the bundle that a named controller does not bring as well.
  lemma UnnamedControllerGetsNothing(c: Config, v: Entry<Vm>, k: Entry<Controller>, load: Loader, p: F.Packet)
    requires WellFormed(c) && v in c.vms && k in c.controllers && k.value.active
    requires v.value.controllers != [] && k.key !in v.value.controllers
    requires AllLoad(load, ControllersForVm(c.controllers, v.value))
    ensures forall s :: s in k.value.sources ==> (s, v.value.address) !in F.Elements(c.vms, c.controllers)
    ensures && p.ip.Some? && p.ip.value.src in k.value.sources && p.ip.value.dst == v.value.address
            && p.oif == c.router.guestInterface != c.router.uplinkInterface && p.ct == F.New ==>
              F.Forward(F.TableFor(c), p) == F.Dropped
    ensures forall fingerprint ::
              fingerprint in Fingerprints(FirstOfEach(LoadedKeys(load, ControllersForVm(c.controllers, v.value)))) ==>
                exists e :: e in c.controllers && e != k && e.key in v.value.controllers && Brings(load, e.value, fingerprint)
  {
    assert ControllerOk(k);
    forall s | s in k.value.sources
      ensures (s, v.value.address) !in F.Elements(c.vms, c.controllers)
    {
      if (s, v.value.address) in F.Elements(c.vms, c.controllers) {
        Policy.FlowMeansPermitted(c, v, k, s);
      }
    }
    if && p.ip.Some? && p.ip.value.src in k.value.sources && p.ip.value.dst == v.value.address
       && p.oif == c.router.guestInterface != c.router.uplinkInterface && p.ct == F.New {
      F.NewPacketToGuest(c, p);
      F.ElementsMembers(c.vms, c.controllers, (p.ip.value.src, p.ip.value.dst));
    }
    forall fingerprint |
      fingerprint in Fingerprints(FirstOfEach(LoadedKeys(load, ControllersForVm(c.controllers, v.value))))
      ensures exists e :: e in c.controllers && e != k && e.key in v.value.controllers
                          && Brings(load, e.value, fingerprint)
    {
      BundleIff(load, c.controllers, v.value, fingerprint);
      var e :| e in c.controllers && e.value.active && e.value.name in v.value.controllers
               && Brings(load, e.value, fingerprint);
      assert ControllerOk(e);
    }
  }

  // Why a key file is not taken.
  lemma LoadMeans(sha: Digest, files: Files, path: string)
    ensures var r := FileLoader(KeyParser(sha), files)(path);
            && (r.Err? && r.error.ReadKey? <==> path !in files)
            && (forall e :: r == Err(InvalidKey(path, e)) <==> path in files && Parse(sha, files[path]) == Err(e))
            && (forall key :: r == Ok(key) <==> path in files && Parse(sha, files[path]) == Ok(key))
            && (r.Err? ==> r.error.path == path)
  {
    KeepsParse(KeyParser(sha), files, path);
  }

  lemma KeepsParse(parse: Parser, files: Files, path: string)
    ensures FileLoader(parse, files)(path)
            == if path !in files then Err(ReadKey(path))
               else if parse(files[path]).Err? then Err(InvalidKey(path, parse(files[path]).error))
               else Ok(parse(files[path]).value)
  {
  }
}
