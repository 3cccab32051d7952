/** The yes-or-no answers the manager reads off printed fields are the facts they were printed from. */
module Answers {
  import opened Wrappers
  import opened Text
  import opened Fields
  import L = Libvirt
  import P = Provision
  import R = Reconcile

  // `before` and `after` are whatever else is printed; `pad` is the alignment.
  function YesNo(before: seq<Field>, key: string, pad: string, yes: bool, after: seq<Field>): seq<Field> {
    before + [Field(key, pad + if yes then "yes" else "no")] + after
  }

  predicate Blank(pad: string) { forall c :: c in pad ==> c == ' ' }

  // The other fields are single lines with other names.
  predicate Others(fields: seq<Field>, key: string) {
    forall f :: f in fields ==> ':' !in f.key && '\n' !in f.key && '\n' !in f.value && Trim(f.key) != key
  }

  lemma {:induction false} PaddingGoes(pad: string, word: string)
    requires Blank(pad) && word != [] && !IsWhitespace(word[0])
    ensures TrimStart(pad + word) == word
  {
    if pad == [] {
      assert pad + word == word;
    } else {
      assert pad[0] in pad && forall c :: c in pad[1..] ==> c in pad;
      PaddingGoes(pad[1..], word);
      assert (pad + word)[0] == pad[0] && (pad + word)[1..] == pad[1..] + word;
    }
  }

  lemma TrimPadded(pad: string, word: string)
    requires Blank(pad) && word != [] && !IsWhitespace(word[0]) && !IsWhitespace(word[|word| - 1])
    ensures Trim(pad + word) == word
  {
    PaddingGoes(pad, word);
  }

  predicate PlainKey(key: string) {
    ':' !in key && '\n' !in key && key != "" && !IsWhitespace(key[0]) && !IsWhitespace(key[|key| - 1])
  }

  lemma YesNoReadsBack(before: seq<Field>, key: string, pad: string, yes: bool, after: seq<Field>)
    requires Blank(pad) && Others(before, key) && Others(after, key) && PlainKey(key)
    ensures FieldIsYes(Join(Printed(YesNo(before, key, pad, yes, after)), '\n'), key) <==> yes
  {
    var fields := YesNo(before, key, pad, yes, after);
    FieldsArePlain(before, key, pad, yes, after);
    FieldsReadBack(fields, key);
    OneFieldAnswers(before, key, pad, yes, after);
  }

  lemma FieldsArePlain(before: seq<Field>, key: string, pad: string, yes: bool, after: seq<Field>)
    requires Blank(pad) && Others(before, key) && Others(after, key) && PlainKey(key)
    ensures forall f :: f in YesNo(before, key, pad, yes, after) ==> ':' !in f.key && '\n' !in f.key && '\n' !in f.value
  {
  }

  lemma OneFieldAnswers(before: seq<Field>, key: string, pad: string, yes: bool, after: seq<Field>)
    requires Blank(pad) && Others(before, key) && Others(after, key) && PlainKey(key)
    ensures (exists f :: f in YesNo(before, key, pad, yes, after) && FieldSaysYes(f, key)) <==> yes
  {
    var word := if yes then "yes" else "no";
    var mine := Field(key, pad + word);
    TrimFixpoint(key);
    TrimPadded(pad, word);
    assert FieldSaysYes(mine, key) <==> yes;
    assert mine in YesNo(before, key, pad, yes, after);
  }

  const MANAGED_SAVE := "Managed save"
  const ACTIVE := "Active"

  lemma KeysArePlain()
    ensures PlainKey(MANAGED_SAVE) && PlainKey(ACTIVE)
  {
  }

  // What the lifecycle operations take as the answer of `dominfo` is what they read in its output.
  lemma DomInfoAnswer(d: L.Domain, before: seq<Field>, pad: string, after: seq<Field>)
    requires d.definition.Some? && Blank(pad) && Others(before, MANAGED_SAVE) && Others(after, MANAGED_SAVE)
    ensures var output := Join(Printed(YesNo(before, MANAGED_SAVE, pad, d.save.Some?, after)), '\n');
            L.Execute(d, L.DomInfo).0 == L.Info(FieldIsYes(output, MANAGED_SAVE))
  {
    KeysArePlain();
    YesNoReadsBack(before, MANAGED_SAVE, pad, d.save.Some?, after);
  }

  // And so it is with `net-info` and reconciliation.
  lemma NetInfoAnswer(e: P.Estate, net: string, before: seq<Field>, pad: string, after: seq<Field>)
    requires net in e.networks && Blank(pad) && Others(before, ACTIVE) && Others(after, ACTIVE)
    ensures var output := Join(Printed(YesNo(before, ACTIVE, pad, e.networks[net].active, after)), '\n');
            R.Effect(e, R.NetInfo(net)) == Some((R.NetActive(FieldIsYes(output, ACTIVE)), e))
  {
    KeysArePlain();
    YesNoReadsBack(before, ACTIVE, pad, e.networks[net].active, after);
  }
}
